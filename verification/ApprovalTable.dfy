/**
 The approvals table and the SQL statements that touch it. Each statement is one atomic step; a run is any sequence
 of statements, issued by any number of processes. What every statement keeps is proved here once.
 */
module ApprovalTable {
  import opened Wrappers
  import opened Timestamps

  datatype Status = Pending | Approved | Rejected | Expired | Consumed

  type Args = map<string, string>

  /** SHA-256 of the canonical JSON, taken to be injective: equal fingerprints mean equal arguments. */
  datatype Fingerprint = Sha256(canonical: Args)

  function FingerprintArgs(args: Args): Fingerprint {
    Sha256(args)
  }

  datatype Request = Request(
    tool: string, args: Args, fingerprint: Fingerprint, status: Status,
    requestedAt: UtcTime, expiresAt: UtcTime, notificationRef: Option<string>,
    decidedAt: Option<UtcTime>, decidedBy: Option<string>, note: Option<string>)
  {
    /** `is_overdue`, on the clock rather than on text. */
    predicate IsOverdue(now: UtcTime) {
      status == Pending && expiresAt.Instant() <= now.Instant()
    }

    predicate DecidedInTime() {
      decidedAt.Some? && decidedAt.value.Instant() < expiresAt.Instant()
    }
  }

  /** `ApprovalRequest.new`: what a request looks like before anybody has seen it. */
  function NewRequest(tool: string, args: Args, created: UtcTime, expires: UtcTime): Request {
    Request(tool, args, FingerprintArgs(args), Pending, created, expires, None, None, None, None)
  }

  type Table = map<string, Request>

  const SYSTEM := "system"
  const TIMEOUT_NOTE := "no response before deadline; denied by default"
  const CHANGED_NOTE := "arguments changed after approval"

  datatype Statement =
    | Insert(id: string, tool: string, args: Args, created: UtcTime, expires: UtcTime)
    | Attach(id: string, ref: Option<string>)
    | ExpireOne(id: string, now: UtcTime)
    | ExpireAll(now: UtcTime)
    | Decide(id: string, approved: bool, reviewer: string, note: Option<string>, now: UtcTime)
    | Burn(id: string, now: UtcTime)
    | Spend(id: string)
    | Select(id: string)

  /** The WHERE clause. Deadlines are compared as the text in the column. */
  predicate Matches(s: Statement, id: string, r: Request) {
    match s
    case Insert(_, _, _, _, _) => false
    case Attach(key, _) => id == key
    case ExpireOne(key, now) => id == key && r.status == Pending && TextAtMost(Iso(r.expiresAt), Iso(now))
    case ExpireAll(now) => r.status == Pending && TextAtMost(Iso(r.expiresAt), Iso(now))
    case Decide(key, _, _, _, now) => id == key && r.status == Pending && TextLess(Iso(now), Iso(r.expiresAt))
    case Burn(key, _) => id == key && r.status == Approved
    case Spend(key) => id == key && r.status == Approved
    case Select(_) => false
  }

  /** The SET clause. */
  function Assign(s: Statement, r: Request): Request {
    match s
    case Attach(_, ref) => r.(notificationRef := ref)
    case ExpireOne(_, now) =>
      r.(status := Expired, decidedAt := Some(now), decidedBy := Some(SYSTEM), note := Some(TIMEOUT_NOTE))
    case ExpireAll(now) =>
      r.(status := Expired, decidedAt := Some(now), decidedBy := Some(SYSTEM), note := Some(TIMEOUT_NOTE))
    case Decide(_, approved, reviewer, note, now) =>
      r.(status := if approved then Approved else Rejected,
         decidedAt := Some(now), decidedBy := Some(reviewer), note := note)
    case Burn(_, now) =>
      r.(status := Rejected, decidedAt := Some(now), decidedBy := Some(SYSTEM), note := Some(CHANGED_NOTE))
    case Spend(_) => r.(status := Consumed)
    case Insert(_, _, _, _, _) => r
    case Select(_) => r
  }

  function Exec(s: Statement, t: Table): Table {
    if s.Insert? then
      if s.id in t then t else t[s.id := NewRequest(s.tool, s.args, s.created, s.expires)]
    else
      map id | id in t :: if Matches(s, id, t[id]) then Assign(s, t[id]) else t[id]
  }

  /** Whether a statement on one id has a non-zero row count. */
  predicate Changes(s: Statement, id: string, t: Table) {
    id in t && Matches(s, id, t[id])
  }

  /** A statement on one id that matches no row leaves the table alone. */
  lemma UnmatchedExec(s: Statement, t: Table)
    requires s.ExpireOne? || s.Decide? || s.Burn? || s.Spend?
    requires !Changes(s, s.id, t)
    ensures Exec(s, t) == t
  {
    assert forall id :: id in t ==> Exec(s, t)[id] == t[id];
  }

  // ------------------------------------------------ what each statement writes

  /** Equal fingerprints mean equal arguments. */
  lemma FingerprintsTell(a: Args, b: Args)
    ensures FingerprintArgs(a) == FingerprintArgs(b) <==> a == b
  {
  }

  /** A new row is pending and carries what the request was asked with; a used id is refused. */
  lemma InsertWrites(id: string, tool: string, args: Args, created: UtcTime, expires: UtcTime, t: Table)
    ensures id in t ==> Exec(Insert(id, tool, args, created, expires), t) == t
    ensures id !in t ==>
      var u := Exec(Insert(id, tool, args, created, expires), t);
      && u == t[id := u[id]]
      && u[id].tool == tool && u[id].args == args && u[id].fingerprint == FingerprintArgs(args)
      && u[id].status == Pending && u[id].requestedAt == created && u[id].expiresAt == expires
      && u[id].notificationRef == None && u[id].decidedAt == None && u[id].decidedBy == None && u[id].note == None
  {
  }

  /** The reference is stored, and nothing else. */
  lemma AttachWrites(id: string, ref: Option<string>, t: Table)
    ensures Exec(Attach(id, ref), t) == if id in t then t[id := t[id].(notificationRef := ref)] else t
  {
    var u := Exec(Attach(id, ref), t);
    assert forall k :: k in t ==> u[k] == if k == id then t[k].(notificationRef := ref) else t[k];
  }

  /** Pending rows at or past their deadline, one or all, are denied by the system; every other row is as it was. */
  lemma ExpiryWrites(s: Statement, t: Table, k: string)
    requires (s.ExpireOne? || s.ExpireAll?) && k in t
    ensures Exec(s, t).Keys == t.Keys
    ensures Exec(s, t)[k] ==
      if t[k].status == Pending && t[k].expiresAt.Instant() <= s.now.Instant() && (s.ExpireOne? ==> k == s.id)
      then t[k].(status := Expired, decidedAt := Some(s.now), decidedBy := Some("system"),
                 note := Some("no response before deadline; denied by default"))
      else t[k]
  {
    DeadlineGuards(k, t[k], true, SYSTEM, None, s.now);
    hide TextLess, Iso, DateTime.Valid, DateTime.Instant, DateTime.Day;
  }

  /** A decision on a pending row inside its deadline is recorded as it was given; any other changes nothing. */
  lemma DecisionWrites(id: string, approved: bool, reviewer: string, note: Option<string>, now: UtcTime, t: Table)
    ensures Exec(Decide(id, approved, reviewer, note, now), t) ==
      if id in t && t[id].status == Pending && now.Instant() < t[id].expiresAt.Instant()
      then t[id := t[id].(status := if approved then Approved else Rejected, decidedAt := Some(now),
                          decidedBy := Some(reviewer), note := note)]
      else t
  {
    hide TextLess, Iso, DateTime.Valid, DateTime.Instant, DateTime.Day;
    var d := Decide(id, approved, reviewer, note, now);
    if Changes(d, id, t) {
      DeadlineGuards(id, t[id], approved, reviewer, note, now);
      assert forall k :: k in t ==> Exec(d, t)[k] == if k == id then Assign(d, t[k]) else t[k];
    } else {
      UnmatchedExec(d, t);
      if id in t {
        DeadlineGuards(id, t[id], approved, reviewer, note, now);
      }
    }
  }

  /** An approval given for other arguments is taken back by the system; anything else is left. */
  lemma BurningWrites(id: string, now: UtcTime, t: Table)
    ensures Exec(Burn(id, now), t) ==
      if id in t && t[id].status == Approved
      then t[id := t[id].(status := Rejected, decidedAt := Some(now), decidedBy := Some("system"),
                          note := Some("arguments changed after approval"))]
      else t
  {
    var u := Exec(Burn(id, now), t);
    assert forall k :: k in t && !(k == id && t[k].status == Approved) ==> u[k] == t[k];
  }

  /** An approval is spent, its decision kept; anything else is left. */
  lemma SpendingWrites(id: string, t: Table)
    ensures Exec(Spend(id), t) == if id in t && t[id].status == Approved then t[id := t[id].(status := Consumed)] else t
  {
    var u := Exec(Spend(id), t);
    assert forall k :: k in t && !(k == id && t[k].status == Approved) ==> u[k] == t[k];
  }

  // ------------------------------------------------------------- the deadline

  /**
   The text guard that expires a request is `is_overdue`, and the text guard that lets a decision in is its exact
   complement: at every moment a pending request can be decided or expired, never both and never neither.
   */
  lemma DeadlineGuards(id: string, r: Request, approved: bool, reviewer: string, note: Option<string>, now: UtcTime)
    ensures Matches(ExpireOne(id, now), id, r) <==> r.IsOverdue(now)
    ensures Matches(ExpireAll(now), id, r) <==> r.IsOverdue(now)
    ensures r.status == Pending ==>
      (Matches(Decide(id, approved, reviewer, note, now), id, r) <==> !Matches(ExpireOne(id, now), id, r))
  {
    TextOrderIsTimeOrder(r.expiresAt, now);
    TextOrderIsTimeOrder(now, r.expiresAt);
  }

  // --------------------------------------------------------- what a row may do

  /** How one row may differ later: identity columns are fixed, and the status only moves forward. */
  ghost predicate RowEvolves(r: Request, s: Request) {
    && s.tool == r.tool && s.args == r.args && s.fingerprint == r.fingerprint
    && s.requestedAt == r.requestedAt && s.expiresAt == r.expiresAt
    && (s.status == r.status ==> SameDecision(r, s))
    && (s.status != r.status ==> match r.status
          case Pending => true
          case Approved => s.status == Rejected || (s.status == Consumed && SameDecision(r, s))
          case _ => false)
  }

  ghost predicate SameDecision(r: Request, s: Request) {
    s.decidedAt == r.decidedAt && s.decidedBy == r.decidedBy && s.note == r.note
  }

  ghost predicate Evolves(t: Table, u: Table) {
    forall id :: id in t ==> id in u && RowEvolves(t[id], u[id])
  }

  lemma ExecEvolves(s: Statement, t: Table)
    ensures Evolves(t, Exec(s, t))
    ensures s.Select? ==> Exec(s, t) == t
  {
    if s.Insert? {
    } else {
      forall id | id in t ensures RowEvolves(t[id], Exec(s, t)[id]) {
        assert Exec(s, t)[id] == if Matches(s, id, t[id]) then Assign(s, t[id]) else t[id];
      }
      if s.Select? {
        assert forall id :: id in t ==> Exec(s, t)[id] == t[id];
      }
    }
  }

  lemma EvolvesTransitive(t: Table, u: Table, v: Table)
    requires Evolves(t, u) && Evolves(u, v)
    ensures Evolves(t, v)
  {
    forall id | id in t ensures id in v && RowEvolves(t[id], v[id]) {
      assert id in u && RowEvolves(t[id], u[id]) && RowEvolves(u[id], v[id]);
    }
  }

  /** Which statement it takes to consume a row, to approve it, and to take an approval back. */
  lemma WhatItTakes(s: Statement, t: Table, id: string)
    requires id in t && !s.Insert?
    ensures id in Exec(s, t)
    ensures Exec(s, t)[id].status == Consumed && t[id].status != Consumed ==> s == Spend(id)
    ensures Exec(s, t)[id].status == Approved && t[id].status != Approved ==>
      s.Decide? && s.approved && s.id == id && Changes(s, id, t)
    ensures Exec(s, t)[id].status == Rejected && t[id].status == Approved ==> s.Burn? && s.id == id
  {
    hide TextLess, Iso;
  }

  // -------------------------------------------------------------------- audit

  /** What every row tells an auditor, whatever happened to it. */
  ghost predicate Audited(r: Request) {
    && r.fingerprint == FingerprintArgs(r.args)
    && match r.status
       case Pending => r.decidedAt == None && r.decidedBy == None && r.note == None
       case Approved => r.DecidedInTime() && r.decidedBy.Some?
       case Consumed => r.DecidedInTime() && r.decidedBy.Some?
       case Expired =>
         && r.decidedAt.Some? && r.expiresAt.Instant() <= r.decidedAt.value.Instant()
         && r.decidedBy == Some(SYSTEM) && r.note == Some(TIMEOUT_NOTE)
       case Rejected =>
         && r.decidedAt.Some? && r.decidedBy.Some?
         && (r.DecidedInTime() || (r.decidedBy == Some(SYSTEM) && r.note == Some(CHANGED_NOTE)))
  }

  ghost predicate AuditedTable(t: Table) {
    forall id :: id in t ==> Audited(t[id])
  }

  lemma ExecKeepsAudit(s: Statement, t: Table)
    requires AuditedTable(t)
    ensures AuditedTable(Exec(s, t))
  {
    hide Iso, TextLess, DateTime.Valid, DateTime.Day, DateTime.Instant;
    if !s.Insert? {
      forall id | id in t ensures Audited(Exec(s, t)[id]) {
        if Matches(s, id, t[id]) {
          AssignKeepsAudit(s, id, t[id]);
        }
      }
    }
  }

  /** One row, where the statement matches it. */
  lemma AssignKeepsAudit(s: Statement, id: string, r: Request)
    requires Audited(r) && Matches(s, id, r)
    ensures Audited(Assign(s, r))
  {
    hide Iso, TextLess, DateTime.Valid, DateTime.Day, DateTime.Instant;
    match s {
      case ExpireOne(_, now) => TextOrderIsTimeOrder(r.expiresAt, now);
      case ExpireAll(now) => TextOrderIsTimeOrder(r.expiresAt, now);
      case Decide(_, _, _, _, now) => TextOrderIsTimeOrder(now, r.expiresAt);
      case _ =>
    }
  }

  // --------------------------------------------------------------------- runs

  /** The table after a run of statements. */
  function Replay(t: Table, run: seq<Statement>): Table {
    if run == [] then t else Exec(run[|run| - 1], Replay(t, run[..|run| - 1]))
  }

  /** The table just before statement `i` of a run. */
  function TableAt(t: Table, run: seq<Statement>, i: nat): Table
    requires i <= |run|
  {
    Replay(t, run[..i])
  }

  lemma TableStep(t: Table, run: seq<Statement>, i: nat)
    requires i < |run|
    ensures TableAt(t, run, i + 1) == Exec(run[i], TableAt(t, run, i))
  {
    assert run[..i + 1][..i] == run[..i];
  }

  /** Across any stretch of any run, rows stay and only move forward. */
  lemma {:induction false} RunEvolves(t: Table, run: seq<Statement>, i: nat, j: nat)
    requires i <= j <= |run|
    ensures Evolves(TableAt(t, run, i), TableAt(t, run, j))
    decreases j
  {
    if i < j {
      RunEvolves(t, run, i, j - 1);
      TableStep(t, run, j - 1);
      ExecEvolves(run[j - 1], TableAt(t, run, j - 1));
      EvolvesTransitive(TableAt(t, run, i), TableAt(t, run, j - 1), TableAt(t, run, j));
    }
  }

  /** Every row of every reachable table is audited. */
  lemma {:induction false} RunKeepsAudit(t: Table, run: seq<Statement>)
    requires AuditedTable(t)
    ensures AuditedTable(Replay(t, run))
  {
    if run != [] {
      RunKeepsAudit(t, run[..|run| - 1]);
      ExecKeepsAudit(run[|run| - 1], Replay(t, run[..|run| - 1]));
    }
  }

  /** How many statements of a run change the status of row `id`. */
  function StatusChanges(t: Table, run: seq<Statement>, id: string): nat {
    if run == [] then 0
    else
      var before := Replay(t, run[..|run| - 1]);
      var after := Exec(run[|run| - 1], before);
      StatusChanges(t, run[..|run| - 1], id)
      + if id in before && id in after && before[id].status != after[id].status then 1 else 0
  }

  /** Statement `i` of the run changes the status of row `id`. */
  ghost predicate ChangesStatus(t: Table, run: seq<Statement>, id: string, i: nat)
    requires i < |run|
  {
    var before, after := TableAt(t, run, i), TableAt(t, run, i + 1);
    id in before && id in after && before[id].status != after[id].status
  }

  ghost function ChangingSteps(t: Table, run: seq<Statement>, id: string): set<nat> {
    set i: nat | i < |run| && ChangesStatus(t, run, id, i)
  }

  /** Every change is counted, once. */
  lemma {:induction false} ChangesAreCounted(t: Table, run: seq<Statement>, id: string)
    ensures StatusChanges(t, run, id) == |ChangingSteps(t, run, id)|
  {
    hide Exec, Replay, ChangesStatus;
    if run == [] {
      NoSteps(t, id);
    } else {
      var last := |run| - 1;
      var front := run[..last];
      ChangesAreCounted(t, front, id);
      forall i: nat | i < last ensures ChangesStatus(t, run, id, i) <==> ChangesStatus(t, front, id, i) {
        ChangeInFront(t, run, id, i);
      }
      LastChange(t, run, id);
      assert ChangingSteps(t, run, id)
        == ChangingSteps(t, front, id) + if ChangesStatus(t, run, id, last) then {last} else {};
    }
  }

  lemma NoSteps(t: Table, id: string)
    ensures ChangingSteps(t, [], id) == {} && StatusChanges(t, [], id) == 0
  {
  }

  lemma ChangeInFront(t: Table, run: seq<Statement>, id: string, i: nat)
    requires i + 1 < |run|
    ensures ChangesStatus(t, run, id, i) <==> ChangesStatus(t, run[..|run| - 1], id, i)
  {
    hide Exec, Replay;
    var front := run[..|run| - 1];
    assert run[..i] == front[..i] && run[..i + 1] == front[..i + 1];
  }

  lemma LastChange(t: Table, run: seq<Statement>, id: string)
    requires run != []
    ensures StatusChanges(t, run, id)
      == StatusChanges(t, run[..|run| - 1], id) + if ChangesStatus(t, run, id, |run| - 1) then 1 else 0
  {
    hide Exec;
    assert run[..|run| - 1 + 1] == run;
  }

  function Distance(s: Status): nat {
    match s case Pending => 0 case Approved => 1 case _ => 2
  }

  /** A row's status changes at most twice in its life, from creation to whatever end. */
  lemma {:induction false} AtMostTwoStatusChanges(t: Table, run: seq<Statement>, id: string)
    ensures StatusChanges(t, run, id) <= 2
    ensures id in t ==> id in Replay(t, run)
    ensures id in t ==> StatusChanges(t, run, id) <= Distance(Replay(t, run)[id].status) - Distance(t[id].status)
    ensures id !in t ==>
      StatusChanges(t, run, id) <= if id in Replay(t, run) then Distance(Replay(t, run)[id].status) else 0
  {
    if run != [] {
      var before := Replay(t, run[..|run| - 1]);
      AtMostTwoStatusChanges(t, run[..|run| - 1], id);
      ExecEvolves(run[|run| - 1], before);
      if id in before {
        assert RowEvolves(before[id], Replay(t, run)[id]);
      }
    }
  }
}

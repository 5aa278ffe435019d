/**
 The SQLite store as one process sees it while it holds the lock. Timestamps are text in the columns and the WHERE
 clauses compare text; the contracts speak of the requests those columns denote.
 */
module ApprovalStore {
  import opened Wrappers
  import opened Timestamps
  import opened ApprovalTable
  import opened Linearization

  /** One row as it lies in the file. */
  datatype Columns = Columns(
    tool: string, args: Args, fingerprint: Fingerprint, status: Status,
    requestedAt: string, expiresAt: string, notificationRef: Option<string>,
    decidedAt: Option<string>, decidedBy: Option<string>, note: Option<string>)

  function WriteColumns(r: Request): Columns {
    Columns(r.tool, r.args, r.fingerprint, r.status, Iso(r.requestedAt), Iso(r.expiresAt), r.notificationRef,
            if r.decidedAt.Some? then Some(Iso(r.decidedAt.value)) else None, r.decidedBy, r.note)
  }

  /** A timestamp column as the store writes it. */
  predicate Written(text: string) {
    Parse(text).Some? && Iso(Parse(text).value) == text
  }

  predicate Readable(c: Columns) {
    Written(c.requestedAt) && Written(c.expiresAt) && (c.decidedAt.Some? ==> Written(c.decidedAt.value))
  }

  /** `_row_to_request`. */
  function ReadColumns(c: Columns): Request
    requires Readable(c)
  {
    Request(c.tool, c.args, c.fingerprint, c.status, Parse(c.requestedAt).value, Parse(c.expiresAt).value,
            c.notificationRef, if c.decidedAt.Some? then Some(Parse(c.decidedAt.value).value) else None,
            c.decidedBy, c.note)
  }

  /** A row read back is the request that was written. */
  lemma ReadUndoesWrite(r: Request)
    ensures Readable(WriteColumns(r)) && ReadColumns(WriteColumns(r)) == r
  {
    ParseUndoesIso(r.requestedAt);
    ParseUndoesIso(r.expiresAt);
    if r.decidedAt.Some? {
      ParseUndoesIso(r.decidedAt.value);
    }
  }

  ghost predicate ReadableAll(rows: map<string, Columns>) {
    forall id :: id in rows ==> Readable(rows[id])
  }

  /** The requests a file of rows denotes. */
  ghost function ReadAll(rows: map<string, Columns>): Table
    requires ReadableAll(rows)
  {
    map id | id in rows :: ReadColumns(rows[id])
  }

  /** `after` is `before` with the statement carried out on the row. */
  ghost predicate CarriesOut(s: Statement, id: string, before: Columns, after: Columns)
    requires Readable(before)
  {
    && Readable(after)
    && var r := ReadColumns(before);
       ReadColumns(after) == if Matches(s, id, r) then Assign(s, r) else r
  }

  /** A statement carried out row by row on the text is the statement on the requests. */
  lemma RowByRow(s: Statement, rows: map<string, Columns>, after: map<string, Columns>)
    requires !s.Insert? && ReadableAll(rows) && after.Keys == rows.Keys
    requires forall id :: id in rows ==> CarriesOut(s, id, rows[id], after[id])
    ensures ReadableAll(after) && ReadAll(after) == Exec(s, ReadAll(rows))
  {
    hide Readable, ReadColumns, Matches, Assign, DateTime.Valid;
    assert ReadableAll(after) by {
      forall id | id in after ensures Readable(after[id]) {
        assert CarriesOut(s, id, rows[id], after[id]);
      }
    }
    var t, u := ReadAll(rows), ReadAll(after);
    forall id | id in u ensures u[id] == Exec(s, t)[id] {
      assert CarriesOut(s, id, rows[id], after[id]);
    }
  }

  function Stamped(c: Columns, status: Status, stamp: string, who: string, note: Option<string>): Columns {
    c.(status := status, decidedAt := Some(stamp), decidedBy := Some(who), note := note)
  }

  lemma StampedReads(c: Columns, status: Status, now: UtcTime, who: string, note: Option<string>)
    requires Readable(c)
    ensures Readable(Stamped(c, status, Iso(now), who, note))
    ensures ReadColumns(Stamped(c, status, Iso(now), who, note))
         == ReadColumns(c).(status := status, decidedAt := Some(now), decidedBy := Some(who), note := note)
  {
    hide Parse, Iso;
    ParseUndoesIso(now);
  }

  /** The text of the deadline column, compared with the text of the moment. */
  lemma DeadlineText(c: Columns, now: UtcTime)
    requires Readable(c)
    ensures c.expiresAt == Iso(ReadColumns(c).expiresAt)
    ensures TextAtMost(c.expiresAt, Iso(now)) <==> ReadColumns(c).expiresAt.Instant() <= now.Instant()
  {
    TextOrderIsTimeOrder(ReadColumns(c).expiresAt, now);
  }

  /** The sweep, on one row: the text guard picks the overdue rows, and stamping them is the statement. */
  lemma ExpiringOneRow(s: Statement, id: string, c: Columns, now: UtcTime)
    requires Readable(c) && (s == ExpireAll(now) || (s.ExpireOne? && s.now == now))
    ensures ReadColumns(c).IsOverdue(now) <==> c.status == Pending && TextAtMost(c.expiresAt, Iso(now))
    ensures CarriesOut(s, id, c,
      if c.status == Pending && TextAtMost(c.expiresAt, Iso(now)) && (s.ExpireOne? ==> id == s.id)
      then Stamped(c, Expired, Iso(now), SYSTEM, Some(TIMEOUT_NOTE)) else c)
  {
    hide Iso, Parse, TextLess;
    DeadlineText(c, now);
    DeadlineGuards(id, ReadColumns(c), true, SYSTEM, None, now);
    StampedReads(c, Expired, now, SYSTEM, Some(TIMEOUT_NOTE));
  }

  /** Exactly the pending requests in scope whose time is up have been denied by the system; others are as before. */
  ghost predicate Swept(t: Table, u: Table, now: UtcTime, only: Option<string>) {
    && u.Keys == t.Keys
    && forall k :: k in t ==>
         u[k] ==
           if t[k].status == Pending && t[k].expiresAt.Instant() <= now.Instant() && (only.Some? ==> k == only.value)
           then t[k].(status := Expired, decidedAt := Some(now), decidedBy := Some("system"),
                      note := Some("no response before deadline; denied by default"))
           else t[k]
  }

  lemma SweptByExpiry(t: Table, now: UtcTime, only: Option<string>)
    ensures Swept(t, Exec(if only.Some? then ExpireOne(only.value, now) else ExpireAll(now), t), now, only)
  {
    hide Exec, DateTime.Instant, DateTime.Valid;
    var s := if only.Some? then ExpireOne(only.value, now) else ExpireAll(now);
    SameKeys(s, t);
    forall k | k in t
      ensures Exec(s, t)[k] ==
        if t[k].status == Pending && t[k].expiresAt.Instant() <= now.Instant() && (only.Some? ==> k == only.value)
        then t[k].(status := Expired, decidedAt := Some(now), decidedBy := Some("system"),
                   note := Some("no response before deadline; denied by default"))
        else t[k]
    {
      ExpiryWrites(s, t, k);
    }
  }

  lemma SameKeys(s: Statement, t: Table)
    requires !s.Insert?
    ensures Exec(s, t).Keys == t.Keys
  {
  }

  /** When a decision changes its row. */
  lemma DecisionMatches(id: string, approved: bool, reviewer: string, note: Option<string>, now: UtcTime, t: Table)
    ensures Changes(Decide(id, approved, reviewer, note, now), id, t) <==>
      id in t && t[id].status == Pending && now.Instant() < t[id].expiresAt.Instant()
  {
    hide TextLess, Iso, DateTime.Valid, DateTime.Instant;
    if id in t {
      DeadlineGuards(id, t[id], approved, reviewer, note, now);
    }
  }

  ghost function OverdueIds(t: Table, now: UtcTime): set<string> {
    set id | id in t && t[id].IsOverdue(now)
  }

  class SQLiteApprovalStore {
    var rows: map<string, Columns>

    ghost predicate Valid()
      reads this
    {
      ReadableAll(rows)
    }

    /** The requests the file denotes. */
    ghost function Requests(): Table
      reads this
      requires Valid()
    {
      ReadAll(rows)
    }

    constructor ()
      ensures Valid() && Requests() == map[]
    {
      rows := map[];
    }

    /** `_fetch`: the row, or nothing when there is none. */
    method Fetch(id: string) returns (r: Option<Request>)
      requires Valid()
      ensures r == if id in Requests() then Some(Requests()[id]) else None
    {
      hide Iso, Parse, TextLess;
      if id in rows {
        r := Some(ReadColumns(rows[id]));
      } else {
        r := None;
      }
    }

    /** False is the primary key's refusal, which the caller sees as an integrity error. */
    method Create(id: string, request: Request) returns (created: bool)
      requires Valid()
      modifies this
      ensures Valid()
      ensures created <==> id !in old(Requests())
      ensures Requests() == if created then old(Requests())[id := request] else old(Requests())
    {
      hide Iso, Parse, TextLess;
      created := id !in rows;
      if created {
        ReadUndoesWrite(request);
        rows := rows[id := WriteColumns(request)];
      }
    }

    method AttachNotification(id: string, ref: Option<string>)
      requires Valid()
      modifies this
      ensures Valid() && Requests() == Exec(Attach(id, ref), old(Requests()))
      ensures Requests() ==
        if id in old(Requests()) then old(Requests())[id := old(Requests())[id].(notificationRef := ref)]
        else old(Requests())
    {
      hide Iso, Parse, TextLess, Exec;
      AttachWrites(id, ref, Requests());
      ghost var was := rows;
      rows := map key | key in rows :: if key == id then rows[key].(notificationRef := ref) else rows[key];
      RowByRow(Attach(id, ref), was, rows);
    }

    /** `_expire_overdue_locked`: one request, or every request. The count is the statement's row count. */
    method ExpireOverdueLocked(now: UtcTime, only: Option<string>) returns (count: nat)
      requires Valid()
      modifies this
      ensures Valid()
      ensures Requests() ==
        Exec(if only.Some? then ExpireOne(only.value, now) else ExpireAll(now), old(Requests()))
      ensures count == |OverdueIds(old(Requests()), now) * (if only.Some? then {only.value} else old(Requests()).Keys)|
      ensures Swept(old(Requests()), Requests(), now, only)
    {
      hide Iso, Parse, TextLess, Readable, ReadColumns, CarriesOut, Exec, Swept, DateTime.Instant;
      var stamp := Iso(now);
      ghost var was := rows;
      ghost var s := if only.Some? then ExpireOne(only.value, now) else ExpireAll(now);
      var hit := set id | id in rows && rows[id].status == Pending && TextAtMost(rows[id].expiresAt, stamp)
                          && (only.Some? ==> id == only.value);
      forall id | id in was
        ensures id in hit <==> id in OverdueIds(Requests(), now) && (only.Some? ==> id == only.value)
        ensures CarriesOut(s, id, was[id],
                           if id in hit then Stamped(was[id], Expired, stamp, SYSTEM, Some(TIMEOUT_NOTE)) else was[id])
      {
        ExpiringOneRow(s, id, was[id], now);
      }
      assert hit == OverdueIds(Requests(), now) * (if only.Some? then {only.value} else Requests().Keys);
      rows := map id | id in rows ::
        if id in hit then Stamped(rows[id], Expired, stamp, SYSTEM, Some(TIMEOUT_NOTE)) else rows[id];
      RowByRow(s, was, rows);
      SweptByExpiry(ReadAll(was), now, only);
      count := |hit|;
    }

    method ExpireOverdue(now: UtcTime) returns (count: nat)
      requires Valid()
      modifies this
      ensures Valid() && Requests() == Exec(ExpireAll(now), old(Requests()))
      ensures count == |OverdueIds(old(Requests()), now)|
      ensures forall id :: id in Requests() ==> !Requests()[id].IsOverdue(now)
      ensures Swept(old(Requests()), Requests(), now, None)
    {
      hide Swept;
      hide Iso, Parse, TextLess;
      count := ExpireOverdueLocked(now, None);
      assert OverdueIds(old(Requests()), now) * old(Requests()).Keys == OverdueIds(old(Requests()), now);
      forall id | id in Requests() ensures !Requests()[id].IsOverdue(now) {
        DeadlineGuards(id, old(Requests())[id], true, SYSTEM, None, now);
      }
    }

    /** Never returns a request that is pending past its deadline. */
    method Get(id: string, now: UtcTime) returns (r: Outcome)
      requires Valid()
      modifies this
      ensures Valid()
      ensures (Requests(), r) == AtomicGet(old(Requests()), id, now)
      ensures r.NotFound? <==> id !in old(Requests())
      ensures r.Done? ==> !r.row.IsOverdue(now)
      ensures id in old(Requests()) ==>
        var was := old(Requests())[id];
        && r.Done? && Requests() == old(Requests())[id := r.row]
        && r.row ==
             if was.status == Pending && was.expiresAt.Instant() <= now.Instant()
             then was.(status := Expired, decidedAt := Some(now), decidedBy := Some("system"),
                       note := Some("no response before deadline; denied by default"))
             else was
      ensures id !in old(Requests()) ==> Requests() == old(Requests())
    {
      hide Iso, Parse, TextLess;
      GetMeaning(Requests(), id, now);
      var _ := ExpireOverdueLocked(now, Some(id));
      var found := Fetch(id);
      r := if found.Some? then Done(found.value) else NotFound;
      if found.Some? {
        DeadlineGuards(id, old(Requests())[id], true, SYSTEM, None, now);
      }
    }

    /** The UPDATE that records a decision; its row count is zero or one. */
    method DecideLocked(id: string, approved: bool, reviewer: string, note: Option<string>, now: UtcTime)
      returns (changed: bool)
      requires Valid()
      modifies this
      ensures Valid()
      ensures changed <==> Changes(Decide(id, approved, reviewer, note, now), id, old(Requests()))
      ensures Requests() == Exec(Decide(id, approved, reviewer, note, now), old(Requests()))
      ensures changed <==> id in old(Requests()) && old(Requests())[id].status == Pending
                           && now.Instant() < old(Requests())[id].expiresAt.Instant()
      ensures Requests() ==
        if changed
        then old(Requests())[id := old(Requests())[id].(
               status := if approved then Approved else Rejected, decidedAt := Some(now),
               decidedBy := Some(reviewer), note := note)]
        else old(Requests())
    {
      hide Iso, Parse, TextLess;
      DecisionWrites(id, approved, reviewer, note, now, Requests());
      DecisionMatches(id, approved, reviewer, note, now, Requests());
      var stamp := Iso(now);
      ghost var was := rows;
      changed := id in rows && rows[id].status == Pending && TextLess(stamp, rows[id].expiresAt);
      if changed {
        rows := rows[id := Stamped(rows[id], if approved then Approved else Rejected, stamp, reviewer, note)];
      }
      if id in was {
        DeadlineText(was[id], now);
        StampedReads(was[id], if approved then Approved else Rejected, now, reviewer, note);
      }
      RowByRow(Decide(id, approved, reviewer, note, now), was, rows);
    }

    /** Records a human decision, or reports how the request really stands. */
    method Resolve(id: string, approved: bool, reviewer: string, note: Option<string>, now: UtcTime)
      returns (r: Outcome)
      requires Valid()
      modifies this
      ensures Valid()
      ensures (Requests(), r) == AtomicResolve(old(Requests()), Decide(id, approved, reviewer, note, now))
      ensures r.Done? <==> id in old(Requests()) && old(Requests())[id].status == Pending
                           && now.Instant() < old(Requests())[id].expiresAt.Instant()
      ensures r.NotFound? <==> id !in old(Requests())
      ensures r.NotFound? ==> Requests() == old(Requests())
      ensures r.Done? ==>
        && r.row == old(Requests())[id].(status := if approved then Approved else Rejected, decidedAt := Some(now),
                                         decidedBy := Some(reviewer), note := note)
        && Requests() == old(Requests())[id := r.row]
      ensures r.Conflict? ==>
        && r.row.status != Pending && Requests() == old(Requests())[id := r.row]
        && (r.row == old(Requests())[id]
            || r.row == old(Requests())[id].(status := Expired, decidedAt := Some(now), decidedBy := Some("system"),
                                             note := Some("no response before deadline; denied by default")))
    {
      hide Iso, Parse, TextLess, Matches, Assign;
      ghost var t := Requests();
      ghost var d := Decide(id, approved, reviewer, note, now);
      ResolveMeaning(t, d);
      var changed := DecideLocked(id, approved, reviewer, note, now);
      if changed {
        var found := Fetch(id);
        return Done(found.value);
      }
      UnmatchedExec(d, t);
      var _ := ExpireOverdueLocked(now, Some(id));
      var current := Fetch(id);
      r := if current.Some? then Conflict(current.value) else NotFound;
    }

    /** The UPDATE that turns an approval given for other arguments into a rejection. */
    method BurnLocked(id: string, now: UtcTime)
      requires Valid()
      modifies this
      ensures Valid() && Requests() == Exec(Burn(id, now), old(Requests()))
      ensures Requests() ==
        if id in old(Requests()) && old(Requests())[id].status == Approved
        then old(Requests())[id := old(Requests())[id].(
               status := Rejected, decidedAt := Some(now), decidedBy := Some("system"),
               note := Some("arguments changed after approval"))]
        else old(Requests())
    {
      hide Iso, Parse, TextLess;
      BurningWrites(id, now, Requests());
      ghost var was := rows;
      if id in rows {
        StampedReads(rows[id], Rejected, now, SYSTEM, Some(CHANGED_NOTE));
        if rows[id].status == Approved {
          rows := rows[id := Stamped(rows[id], Rejected, Iso(now), SYSTEM, Some(CHANGED_NOTE))];
        }
      }
      RowByRow(Burn(id, now), was, rows);
    }

    /** The UPDATE that spends an approval; its row count is zero or one. */
    method SpendLocked(id: string) returns (changed: bool)
      requires Valid()
      modifies this
      ensures Valid()
      ensures changed <==> Changes(Spend(id), id, old(Requests()))
      ensures Requests() == Exec(Spend(id), old(Requests()))
      ensures changed <==> id in old(Requests()) && old(Requests())[id].status == Approved
      ensures Requests() ==
        if changed then old(Requests())[id := old(Requests())[id].(status := Consumed)] else old(Requests())
    {
      hide Iso, Parse, TextLess;
      SpendingWrites(id, Requests());
      ghost var was := rows;
      changed := id in rows && rows[id].status == Approved;
      if changed {
        rows := rows[id := rows[id].(status := Consumed)];
      }
      RowByRow(Spend(id), was, rows);
    }

    /** Spends an approval, or burns it when the arguments are not the ones that were approved. */
    method Consume(id: string, fp: Fingerprint, now: UtcTime) returns (r: Outcome)
      requires Valid()
      modifies this
      ensures Valid()
      ensures (Requests(), r) == AtomicConsume(old(Requests()), id, fp, now)
      ensures r.Done? <==> id in old(Requests()) && old(Requests())[id].status == Approved
                           && old(Requests())[id].fingerprint == fp
      ensures r.Done? || r.Mismatch? ==> id in Requests() && Requests()[id].status != Approved
      ensures r.NotFound? <==> id !in old(Requests())
      ensures r.Mismatch? <==> id in old(Requests()) && old(Requests())[id].fingerprint != fp
      ensures !r.NotFound? ==> r.row == if r.Done? then old(Requests())[id].(status := Consumed)
        else if r.Mismatch? && old(Requests())[id].status == Approved
        then old(Requests())[id].(status := Rejected, decidedAt := Some(now), decidedBy := Some("system"),
                                  note := Some("arguments changed after approval"))
        else old(Requests())[id]
      ensures Requests() == if r.NotFound? then old(Requests()) else old(Requests())[id := r.row]
    {
      hide Iso, Parse, TextLess;
      ConsumeMeaning(Requests(), id, fp, now);
      var seen := Fetch(id);
      if seen.None? {
        return NotFound;
      }
      if seen.value.fingerprint != fp {
        BurnLocked(id, now);
        var burnt := Fetch(id);
        return Mismatch(burnt.value);
      }
      ghost var t := Requests();
      var changed := SpendLocked(id);
      if !changed {
        UnmatchedExec(Spend(id), t);
      }
      var current := Fetch(id);
      r := if changed then Done(current.value) else Conflict(current.value);
    }
  }
}

/**
 What the gate does with one call, step by step: who is gated, what the request carries, how it is denied, refused,
 taken back or spent; and that a request carries, to the end, the arguments it was asked with.
 */
module GateSteps {
  import opened Wrappers
  import opened Timestamps
  import opened ApprovalTable
  import opened GateProtocol

  // ------------------------------------------------------------------ who is gated

  /**
   A call stops for a human unless policy or the server clears it. A listed write tool is never cleared, and a server's
   word that a tool is destructive outweighs even the list of read-only ones.
   */
  lemma GatedExactly(p: Policy, name: string)
    ensures p.RequiresApproval(name) <==>
      || name !in p.catalog
      || p.catalog[name].destructive == Some(true)
      || name in p.writeTools
      || (name !in p.readOnlyTools && p.catalog[name].readOnly != Some(true) && p.unknownNeedApproval)
  {
  }

  // -------------------------------------------------------------- what is asked for

  /** A call asks with its tool and its arguments, now. */
  lemma AskRecords(p: Policy, w: World, a: nat, id: string, tool: string, args: Args, expires: UtcTime)
    requires a !in w.agents && tool in p.catalog && p.RequiresApproval(tool) && tool !in p.forbidden
    ensures var v := Next(p, w, Ask(a, id, tool, args, expires));
      && v.agents == w.agents[a := Agent(Drafted(id, args, w.clock, expires), tool, args, args)]
      && v.table == w.table && v.executions == w.executions
  {
  }

  /** The row says what was asked for, and is in nobody's way. */
  lemma InsertRecords(p: Policy, w: World, a: nat, id: string, args: Args, created: UtcTime, expires: UtcTime)
    requires a in w.agents && w.agents[a].phase == Drafted(id, args, created, expires)
    ensures var v := Next(p, w, InsertRow(a));
      if id in w.table then v.table == w.table && In(v, a, Finished)
      else
        && In(v, a, Notifying(id)) && id in v.table && v.table == w.table[id := v.table[id]]
        && v.table[id].tool == w.agents[a].tool && v.table[id].args == args
        && v.table[id].fingerprint == FingerprintArgs(args) && v.table[id].status == Pending
        && v.table[id].requestedAt == created && v.table[id].expiresAt == expires
  {
    hide Exec, Matches, Assign, Changes, DateTime.Instant;
    InsertWrites(id, w.agents[a].tool, args, created, expires, w.table);
  }

  /** A draft, and then the row, has the arguments the call asked with. */
  ghost predicate AskedAs(w: World, a: nat)
    requires a in w.agents
  {
    && (w.agents[a].phase.Drafted? ==> w.agents[a].phase.args == w.agents[a].asked)
    && (w.agents[a].phase.Holds() ==> CarriesAsked(w, a, w.agents[a].phase.id))
  }

  ghost predicate CarriesAsked(w: World, a: nat, id: string)
    requires a in w.agents
  {
    && id in w.table && w.table[id].tool == w.agents[a].tool && w.table[id].args == w.agents[a].asked
    && w.table[id].fingerprint == FingerprintArgs(w.agents[a].asked)
  }

  ghost predicate AllAskedAs(w: World) {
    forall a :: a in w.agents ==> AskedAs(w, a)
  }

  lemma StepKeepsAsked(p: Policy, w: World, s: Step)
    requires AllAskedAs(w)
    ensures AllAskedAs(Next(p, w, s))
  {
    hide Next, AskedAs, Enabled, Moves, Inserts, Approves, Actor, DateTime.Instant;
    var v := Next(p, w, s);
    StepHistory(p, w, s);
    forall a | a in v.agents ensures AskedAs(v, a) {
      if a in w.agents {
        CallStillAsked(p, w, s, a);
      } else {
        NewcomerAsked(p, w, s, a);
      }
    }
  }

  lemma NewcomerAsked(p: Policy, w: World, s: Step, a: nat)
    requires a !in w.agents && a in Next(p, w, s).agents
    ensures AskedAs(Next(p, w, s), a)
  {
    hide Moves, NextTable, Issues, Changes, DateTime.Instant;
  }

  lemma CallStillAsked(p: Policy, w: World, s: Step, a: nat)
    requires a in w.agents && AskedAs(w, a)
    ensures a in Next(p, w, s).agents && AskedAs(Next(p, w, s), a)
  {
    hide Next, Moves, Enabled, Inserts, Actor, CarriesAsked, DateTime.Instant;
    StepOthers(p, w, s, a);
    var f, g := w.agents[a].phase, Next(p, w, s).agents[a].phase;
    if g.Drafted? {
      DraftStays(p, w, s, a);
    } else if g.Holds() && f.Holds() {
      RowStillCarries(p, w, s, a, g.id);
    } else if g.Holds() {
      RowComesToCarry(p, w, s, a);
    }
  }

  lemma DraftStays(p: Policy, w: World, s: Step, a: nat)
    requires a in w.agents && a in Next(p, w, s).agents && Next(p, w, s).agents[a].phase.Drafted?
    ensures Next(p, w, s).agents[a].phase == w.agents[a].phase
  {
    hide Next, DateTime.Instant;
    StepOthers(p, w, s, a);
    if Actor(s) == Some(a) && Enabled(p, w, s) {
      MovesToNoDraft(w, s, w.agents[a]);
    } else if !Enabled(p, w, s) {
      NothingHappens(p, w, s);
    }
  }

  lemma NothingHappens(p: Policy, w: World, s: Step)
    requires !Enabled(p, w, s)
    ensures Next(p, w, s) == w
  {
  }

  lemma MovesToNoDraft(w: World, s: Step, g: Agent)
    requires Moves(w, s, g).Drafted?
    ensures Moves(w, s, g) == g.phase
  {
    hide Changes, DateTime.Instant;
  }

  lemma RowStillCarries(p: Policy, w: World, s: Step, a: nat, id: string)
    requires a in w.agents && a in Next(p, w, s).agents && CarriesAsked(w, a, id)
    ensures CarriesAsked(Next(p, w, s), a, id)
  {
    hide Next, Moves, Actor, Enabled, Inserts, DateTime.Instant;
    StepOthers(p, w, s, a);
    StepRow(p, w, s, id);
  }

  lemma RowComesToCarry(p: Policy, w: World, s: Step, a: nat)
    requires a in w.agents && AskedAs(w, a) && !w.agents[a].phase.Holds()
    requires a in Next(p, w, s).agents && Next(p, w, s).agents[a].phase.Holds()
    ensures CarriesAsked(Next(p, w, s), a, Next(p, w, s).agents[a].phase.id)
  {
    hide Next, Moves, Actor, DateTime.Instant;
    StepOthers(p, w, s, a);
    assert Inserts(p, w, s) && s.a == a;
    var d := w.agents[a].phase;
    assert s == InsertRow(a);
    InsertRecords(p, w, a, d.id, d.args, d.created, d.expires);
  }

  /** In every reachable world each request carries the tool and the arguments its call asked with. */
  lemma {:induction false} RequestsCarryWhatWasAsked(p: Policy, clock: UtcTime, steps: seq<Step>)
    ensures AllAskedAs(After(p, Initial(clock), steps))
  {
    hide Next;
    if steps != [] {
      RequestsCarryWhatWasAsked(p, clock, steps[..|steps| - 1]);
      StepKeepsAsked(p, After(p, Initial(clock), steps[..|steps| - 1]), steps[|steps| - 1]);
    }
  }

  /** A call whose arguments nobody changes would run with what it asked with. */
  lemma {:induction false} UnchangedArgs(p: Policy, clock: UtcTime, steps: seq<Step>, a: nat)
    requires forall i :: 0 <= i < |steps| ==> !(steps[i].ChangeArgs? && steps[i].a == a)
    requires a in After(p, Initial(clock), steps).agents
    ensures var g := After(p, Initial(clock), steps).agents[a]; g.args == g.asked
  {
    hide Next;
    if steps != [] {
      var front, s := steps[..|steps| - 1], steps[|steps| - 1];
      var w := After(p, Initial(clock), front);
      if a in w.agents {
        UnchangedArgs(p, clock, front, a);
      }
      StepLeavesArgs(p, w, s, a);
    }
  }

  lemma StepLeavesArgs(p: Policy, w: World, s: Step, a: nat)
    requires a in w.agents ==> w.agents[a].args == w.agents[a].asked
    requires !(s.ChangeArgs? && s.a == a) && a in Next(p, w, s).agents
    ensures Next(p, w, s).agents[a].args == Next(p, w, s).agents[a].asked
  {
    hide NextTable, Moves, Issues, Changes, DateTime.Instant;
  }

  // -------------------------------------------------------------- how it comes out

  /** A step that is enabled issues its statement. */
  lemma StatementRuns(p: Policy, w: World, s: Step, q: Statement)
    requires Enabled(p, w, s) && Issues(w, s) == Some(q)
    ensures Next(p, w, s).table == Exec(q, w.table)
  {
    hide Enabled, Issues, NextAgents, Exec, DateTime.Instant;
  }

  lemma NobodyMoves(p: Policy, w: World, s: Step)
    requires Actor(s) == None && !s.Ask?
    ensures Next(p, w, s).agents == w.agents && Next(p, w, s).executions == w.executions
  {
    hide Enabled, Issues, NextTable, Changes, DateTime.Instant;
  }

  lemma CallMoves(p: Policy, w: World, s: Step, a: nat)
    requires Enabled(p, w, s) && Actor(s) == Some(a) && a in w.agents && !s.Execute?
    ensures In(Next(p, w, s), a, Moves(w, s, w.agents[a])) && Next(p, w, s).executions == w.executions
  {
    hide Enabled, Issues, NextTable, Changes, Moves, DateTime.Instant;
  }

  /** A call that polls past the deadline has its request denied; what it reads then ends it. */
  lemma DeniedByDefault(p: Policy, w: World, a: nat, id: string, moment: UtcTime)
    requires In(w, a, Expiring(id)) && id in w.table && w.table[id].status == Pending
    requires moment.Instant() <= w.clock.Instant() && w.table[id].expiresAt.Instant() <= moment.Instant()
    ensures var v := Next(p, w, PollExpire(a, moment));
      && In(v, a, Reading(id)) && id in v.table && v.executions == w.executions
      && v.table[id] == w.table[id].(status := Expired, decidedAt := Some(moment), decidedBy := Some("system"),
                                     note := Some("no response before deadline; denied by default"))
  {
    hide Next, Exec, DateTime.Instant;
    StatementRuns(p, w, PollExpire(a, moment), ExpireOne(id, moment));
    CallMoves(p, w, PollExpire(a, moment), a);
    ExpiryWrites(ExpireOne(id, moment), w.table, id);
  }

  /** What a call reads decides how it goes on: it waits, goes past the gate, or ends. */
  lemma ReadingLeads(p: Policy, w: World, a: nat, id: string)
    requires In(w, a, Reading(id)) && id in w.table
    ensures var v := Next(p, w, PollRead(a));
      && v.table == w.table && v.executions == w.executions
      && In(v, a, if w.table[id].status == Pending then Expiring(id)
                  else if w.table[id].status == Approved then Comparing(id) else Finished)
  {
    hide Exec, Changes, DateTime.Instant;
  }

  /** A notifier that raises leads to a refusal, by the system, if the request is still pending in time. */
  lemma FailingRefuses(p: Policy, w: World, a: nat, id: string, note: Option<string>, moment: UtcTime)
    requires In(w, a, FailDeciding(id)) && id in w.table && moment.Instant() <= w.clock.Instant()
    ensures var v := Next(p, w, FailDecide(a, note, moment));
      && v.executions == w.executions && v.approvals == w.approvals
      && if w.table[id].status == Pending && moment.Instant() < w.table[id].expiresAt.Instant()
         then
           && In(v, a, Finished)
           && v.table == w.table[id := w.table[id].(status := Rejected, decidedAt := Some(moment),
                                                    decidedBy := Some("system"), note := note)]
         else v.table == w.table && In(v, a, FailExpiring(id))
  {
    hide Exec, Matches, Assign, DateTime.Instant;
    DecisionWrites(id, false, "system", note, moment, w.table);
    RefusalMatches(id, note, moment, w.table);
  }

  lemma RefusalMatches(id: string, note: Option<string>, moment: UtcTime, t: Table)
    requires id in t
    ensures Changes(Decide(id, false, SYSTEM, note, moment), id, t) <==>
      t[id].status == Pending && moment.Instant() < t[id].expiresAt.Instant()
  {
    hide TextLess, Iso, DateTime.Instant, DateTime.Valid;
    DeadlineGuards(id, t[id], false, SYSTEM, note, moment);
  }

  lemma FailureIsRaised(p: Policy, w: World, a: nat, id: string)
    requires In(w, a, Notifying(id))
    ensures In(Next(p, w, NotifyRaised(a)), a, FailDeciding(id)) && Next(p, w, NotifyRaised(a)).table == w.table
  {
    hide Exec, Changes, DateTime.Instant;
  }

  /** The arguments are compared with those approved; others than these burn the approval. */
  lemma ComparisonLeads(p: Policy, w: World, a: nat, id: string)
    requires In(w, a, Comparing(id)) && id in w.table
    ensures var v := Next(p, w, Compare(a));
      && v.table == w.table
      && In(v, a, if w.table[id].fingerprint == FingerprintArgs(w.agents[a].args) then Spending(id) else Burning(id))
  {
    hide Exec, Changes, DateTime.Instant;
  }

  lemma BurningEnds(p: Policy, w: World, a: nat, id: string, moment: UtcTime)
    requires In(w, a, Burning(id)) && id in w.table && moment.Instant() <= w.clock.Instant()
    ensures var v := Next(p, w, BurnRow(a, moment));
      && In(v, a, Finished) && v.executions == w.executions
      && v.table == if w.table[id].status == Approved
                    then w.table[id := w.table[id].(status := Rejected, decidedAt := Some(moment),
                           decidedBy := Some("system"), note := Some("arguments changed after approval"))]
                    else w.table
  {
    hide Next, Exec, DateTime.Instant;
    StatementRuns(p, w, BurnRow(a, moment), Burn(id, moment));
    CallMoves(p, w, BurnRow(a, moment), a);
    BurningWrites(id, moment, w.table);
  }

  /** The reference of the notice is stored, if there is one, and the call goes on to wait. */
  lemma NoticeIsKept(p: Policy, w: World, a: nat, id: string, ref: Option<string>)
    requires In(w, a, Notifying(id)) && id in w.table
    ensures var v := Next(p, w, Notified(a, ref));
      && In(v, a, Expiring(id)) && v.executions == w.executions
      && v.table == if ref.Some? then w.table[id := w.table[id].(notificationRef := ref)] else w.table
  {
    hide Next, Exec, DateTime.Instant;
    CallMoves(p, w, Notified(a, ref), a);
    if ref.Some? {
      StatementRuns(p, w, Notified(a, ref), Attach(id, ref));
      AttachWrites(id, ref, w.table);
    } else {
      NoStatement(p, w, Notified(a, ref));
    }
  }

  lemma NoStatement(p: Policy, w: World, s: Step)
    requires Issues(w, s) == None
    ensures Next(p, w, s).table == w.table
  {
    hide Enabled, Issues, NextAgents, DateTime.Instant;
  }

  /** A crash ends the call where it is; its request and what others do are not touched. */
  lemma CrashEndsTheCall(p: Policy, w: World, a: nat)
    requires a in w.agents
    ensures var v := Next(p, w, Crash(a));
      v.table == w.table && v.agents == w.agents[a := w.agents[a].(phase := Dead)] && v.executions == w.executions
  {
  }

  /** While it waits, whoever holds the arguments may change them; the request stays as it is. */
  lemma ArgsMayChange(p: Policy, w: World, a: nat, args: Args)
    requires a in w.agents
    requires match w.agents[a].phase
      case Drafted(_, _, _, _) => true
      case Notifying(_) => true
      case FailDeciding(_) => true
      case FailExpiring(_) => true
      case FailReading(_) => true
      case Expiring(_) => true
      case Reading(_) => true
      case Comparing(_) => true
      case _ => false
    ensures var v := Next(p, w, ChangeArgs(a, args));
      v.table == w.table && v.agents == w.agents[a := w.agents[a].(args := args)]
  {
  }

  /** Time passes, and nothing else. */
  lemma TimePasses(p: Policy, w: World, now: UtcTime)
    requires w.clock.Instant() <= now.Instant()
    ensures Next(p, w, Tick(now)) == w.(clock := now)
  {
    hide DateTime.Instant, DateTime.Valid;
  }

  /** Anyone may deny one request whose time is up. */
  lemma OneExpires(p: Policy, w: World, id: string, moment: UtcTime)
    requires moment.Instant() <= w.clock.Instant() && id in w.table
    requires w.table[id].status == Pending && w.table[id].expiresAt.Instant() <= moment.Instant()
    ensures var v := Next(p, w, Expire(id, moment));
      && v.agents == w.agents && id in v.table
      && v.table[id] == w.table[id].(status := Expired, decidedAt := Some(moment), decidedBy := Some("system"),
                                     note := Some("no response before deadline; denied by default"))
  {
    hide Next, Exec, DateTime.Instant;
    StatementRuns(p, w, Expire(id, moment), ExpireOne(id, moment));
    NobodyMoves(p, w, Expire(id, moment));
    ExpiryWrites(ExpireOne(id, moment), w.table, id);
  }

  /** A reviewer's answer in time is recorded as it was given; any other is not recorded at all. */
  lemma ReviewRecords(p: Policy, w: World, id: string, approved: bool, reviewer: string, note: Option<string>,
                      moment: UtcTime)
    requires moment.Instant() <= w.clock.Instant()
    ensures var v := Next(p, w, Review(id, approved, reviewer, note, moment));
      && v.agents == w.agents && v.executions == w.executions
      && v.table ==
           if id in w.table && w.table[id].status == Pending && moment.Instant() < w.table[id].expiresAt.Instant()
           then w.table[id := w.table[id].(status := if approved then Approved else Rejected,
                                           decidedAt := Some(moment), decidedBy := Some(reviewer), note := note)]
           else w.table
  {
    hide Next, Exec, DateTime.Instant;
    var s := Review(id, approved, reviewer, note, moment);
    StatementRuns(p, w, s, Decide(id, approved, reviewer, note, moment));
    NobodyMoves(p, w, s);
    DecisionWrites(id, approved, reviewer, note, moment, w.table);
  }

  /** A sweep denies whatever is overdue, and nothing else. */
  lemma SweepDenies(p: Policy, w: World, moment: UtcTime, id: string)
    requires moment.Instant() <= w.clock.Instant() && id in w.table
    ensures var v := Next(p, w, Sweep(moment));
      && v.table.Keys == w.table.Keys && v.agents == w.agents
      && v.table[id] ==
           if w.table[id].status == Pending && w.table[id].expiresAt.Instant() <= moment.Instant()
           then w.table[id].(status := Expired, decidedAt := Some(moment), decidedBy := Some("system"),
                             note := Some("no response before deadline; denied by default"))
           else w.table[id]
  {
    hide Next, Exec, DateTime.Instant;
    StatementRuns(p, w, Sweep(moment), ExpireAll(moment));
    NobodyMoves(p, w, Sweep(moment));
    ExpiryWrites(ExpireAll(moment), w.table, id);
  }
}

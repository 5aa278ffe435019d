/**
 The approval gate as a protocol over the shared table. Calls, reviewers, sweepers and crashes interleave at every
 SQL statement, in any number of processes. One agent here is one tool call that went to the gate.
 */
module GateProtocol {
  import opened Wrappers
  import opened Timestamps
  import opened ApprovalTable

  // ------------------------------------------------------- which calls are gated

  datatype Hints = Hints(readOnly: Option<bool>, destructive: Option<bool>)

  datatype Policy = Policy(
    writeTools: set<string>, readOnlyTools: set<string>, forbidden: set<string>, unknownNeedApproval: bool,
    catalog: map<string, Hints>)
  {
    /** The policy's own answer, before a server's destructive hint escalates it. */
    predicate PolicyRequires(name: string, readOnlyHint: Option<bool>) {
      if name in writeTools then true
      else if name in readOnlyTools then false
      else if readOnlyHint == Some(true) then false
      else unknownNeedApproval
    }

    predicate RequiresApproval(name: string) {
      if name !in catalog then true
      else if catalog[name].destructive == Some(true) then true
      else PolicyRequires(name, catalog[name].readOnly)
    }
  }

  // -------------------------------------------------------------------- the state

  /**
   Where a gated call stands: the statement it issues next, or how it ended. A drafted request has a copy of the
   arguments.
   */
  datatype Phase =
    | Drafted(id: string, args: Args, created: UtcTime, expires: UtcTime)
    | Notifying(id: string)
    | FailDeciding(id: string) | FailExpiring(id: string) | FailReading(id: string)
    | Expiring(id: string) | Reading(id: string)
    | Comparing(id: string) | Burning(id: string) | Spending(id: string) | Confirming(id: string)
    | Granted(id: string)
    | Finished
    | Dead
  {
    /** The call has inserted a request and may still act on it. */
    predicate Holds() {
      !Drafted? && !Finished? && !Dead?
    }
  }

  /** `args` are the arguments the call would run with now; `asked`, the ones it asked with, is history. */
  datatype Agent = Agent(phase: Phase, tool: string, args: Args, asked: Args)
  datatype Approval = Approval(id: string, reviewer: string, at: UtcTime)
  datatype Execution = Execution(agent: nat, id: string, tool: string, args: Args)

  /** `owner`, `approvals`, `executions` and `ungated` are history: nothing reads them to decide a step. */
  datatype World = World(
    clock: UtcTime, table: Table, agents: map<nat, Agent>,
    owner: map<string, nat>, approvals: seq<Approval>, executions: seq<Execution>, ungated: seq<string>)

  function Initial(clock: UtcTime): World {
    World(clock, map[], map[], map[], [], [], [])
  }

  // -------------------------------------------------------------------- the steps

  datatype Step =
    | Tick(now: UtcTime)
    | CallUngated(tool: string)
    | Ask(a: nat, id: string, tool: string, args: Args, expires: UtcTime)
    | InsertRow(a: nat)
    | Notified(a: nat, ref: Option<string>)
    | NotifyRaised(a: nat)
    | FailDecide(a: nat, note: Option<string>, moment: UtcTime)
    | FailExpire(a: nat, moment: UtcTime)
    | FailRead(a: nat)
    | PollExpire(a: nat, moment: UtcTime)
    | PollRead(a: nat)
    | Compare(a: nat)
    | BurnRow(a: nat, moment: UtcTime)
    | SpendRow(a: nat)
    | Confirm(a: nat)
    | Execute(a: nat)
    | ChangeArgs(a: nat, args: Args)
    | Crash(a: nat)
    | Review(id: string, approved: bool, reviewer: string, note: Option<string>, moment: UtcTime)
    | Expire(id: string, moment: UtcTime)
    | Sweep(moment: UtcTime)

  predicate In(w: World, a: nat, phase: Phase) {
    a in w.agents && w.agents[a].phase == phase
  }

  /** What the caller does once the gate hands it a request in a final state. */
  function AfterDecision(id: string, status: Status): Phase {
    if status == Approved then Comparing(id) else Finished
  }

  predicate Enabled(p: Policy, w: World, s: Step) {
    match s
    case Tick(now) => w.clock.Instant() <= now.Instant()
    case CallUngated(tool) => tool in p.catalog && !p.RequiresApproval(tool)
    case Ask(a, _, tool, _, _) =>
      a !in w.agents && tool in p.catalog && p.RequiresApproval(tool) && tool !in p.forbidden
    case InsertRow(a) => a in w.agents && w.agents[a].phase.Drafted?
    case Notified(a, _) => a in w.agents && w.agents[a].phase.Notifying?
    case NotifyRaised(a) => a in w.agents && w.agents[a].phase.Notifying?
    case FailDecide(a, _, m) => a in w.agents && w.agents[a].phase.FailDeciding? && m.Instant() <= w.clock.Instant()
    case FailExpire(a, m) => a in w.agents && w.agents[a].phase.FailExpiring? && m.Instant() <= w.clock.Instant()
    case FailRead(a) => a in w.agents && w.agents[a].phase.FailReading?
    case PollExpire(a, m) => a in w.agents && w.agents[a].phase.Expiring? && m.Instant() <= w.clock.Instant()
    case PollRead(a) => a in w.agents && w.agents[a].phase.Reading?
    case Compare(a) => a in w.agents && w.agents[a].phase.Comparing?
    case BurnRow(a, m) => a in w.agents && w.agents[a].phase.Burning? && m.Instant() <= w.clock.Instant()
    case SpendRow(a) => a in w.agents && w.agents[a].phase.Spending?
    case Confirm(a) => a in w.agents && w.agents[a].phase.Confirming?
    case Execute(a) => a in w.agents && w.agents[a].phase.Granted?
    case ChangeArgs(a, _) =>
      // Nothing is awaited from the comparison to the call, so until then only.
      a in w.agents && (w.agents[a].phase.Holds() || w.agents[a].phase.Drafted?)
      && !w.agents[a].phase.Burning? && !w.agents[a].phase.Spending?
      && !w.agents[a].phase.Confirming? && !w.agents[a].phase.Granted?
    case Crash(a) => a in w.agents
    case Review(_, _, _, _, m) => m.Instant() <= w.clock.Instant()
    case Expire(_, m) => m.Instant() <= w.clock.Instant()
    case Sweep(m) => m.Instant() <= w.clock.Instant()
  }

  /** The SQL statement a step issues, if any. */
  function Issues(w: World, s: Step): Option<Statement> {
    match s
    case InsertRow(a) =>
      if a in w.agents && w.agents[a].phase.Drafted? then
        var g := w.agents[a];
        Some(Insert(g.phase.id, g.tool, g.phase.args, g.phase.created, g.phase.expires))
      else None
    case Notified(a, ref) =>
      if ref.Some? && a in w.agents && w.agents[a].phase.Notifying?
      then Some(Attach(w.agents[a].phase.id, ref)) else None
    case FailDecide(a, note, m) =>
      if a in w.agents && w.agents[a].phase.FailDeciding?
      then Some(Decide(w.agents[a].phase.id, false, SYSTEM, note, m)) else None
    case FailExpire(a, m) =>
      if a in w.agents && w.agents[a].phase.FailExpiring? then Some(ExpireOne(w.agents[a].phase.id, m)) else None
    case PollExpire(a, m) =>
      if a in w.agents && w.agents[a].phase.Expiring? then Some(ExpireOne(w.agents[a].phase.id, m)) else None
    case BurnRow(a, m) =>
      if a in w.agents && w.agents[a].phase.Burning? then Some(Burn(w.agents[a].phase.id, m)) else None
    case SpendRow(a) =>
      if a in w.agents && w.agents[a].phase.Spending? then Some(Spend(w.agents[a].phase.id)) else None
    case Review(id, approved, reviewer, note, m) => Some(Decide(id, approved, reviewer, note, m))
    case Expire(id, m) => Some(ExpireOne(id, m))
    case Sweep(m) => Some(ExpireAll(m))
    case _ => None
  }

  /** The phase the acting call moves to. */
  function Moves(w: World, s: Step, g: Agent): Phase {
    match s
    case InsertRow(a) => if !g.phase.Drafted? || g.phase.id in w.table then Finished else Notifying(g.phase.id)
    case Notified(a, _) => if g.phase.Notifying? then Expiring(g.phase.id) else g.phase
    case NotifyRaised(a) => if g.phase.Notifying? then FailDeciding(g.phase.id) else g.phase
    case FailDecide(a, note, m) =>
      if !g.phase.FailDeciding? then g.phase
      else if Changes(Decide(g.phase.id, false, SYSTEM, note, m), g.phase.id, w.table) then Finished
      else FailExpiring(g.phase.id)
    case FailExpire(a, _) => if g.phase.FailExpiring? then FailReading(g.phase.id) else g.phase
    case FailRead(a) =>
      if g.phase.FailReading? && g.phase.id in w.table
      then AfterDecision(g.phase.id, w.table[g.phase.id].status) else g.phase
    case PollExpire(a, _) => if g.phase.Expiring? then Reading(g.phase.id) else g.phase
    case PollRead(a) =>
      if !g.phase.Reading? || g.phase.id !in w.table then g.phase
      else if w.table[g.phase.id].status == Pending then Expiring(g.phase.id)
      else AfterDecision(g.phase.id, w.table[g.phase.id].status)
    case Compare(a) =>
      if !g.phase.Comparing? || g.phase.id !in w.table then g.phase
      else if w.table[g.phase.id].fingerprint != FingerprintArgs(g.args) then Burning(g.phase.id)
      else Spending(g.phase.id)
    case BurnRow(a, _) => Finished
    case SpendRow(a) =>
      if g.phase.Spending? && Changes(Spend(g.phase.id), g.phase.id, w.table) then Confirming(g.phase.id) else Finished
    case Confirm(a) => if g.phase.Confirming? then Granted(g.phase.id) else g.phase
    case Execute(a) => Finished
    case Crash(a) => Dead
    case _ => g.phase
  }

  function Actor(s: Step): Option<nat> {
    match s
    case Tick(_) => None
    case CallUngated(_) => None
    case Review(_, _, _, _, _) => None
    case Expire(_, _) => None
    case Sweep(_) => None
    case Ask(_, _, _, _, _) => None
    case InsertRow(a) => Some(a)
    case Notified(a, _) => Some(a)
    case NotifyRaised(a) => Some(a)
    case FailDecide(a, _, _) => Some(a)
    case FailExpire(a, _) => Some(a)
    case FailRead(a) => Some(a)
    case PollExpire(a, _) => Some(a)
    case PollRead(a) => Some(a)
    case Compare(a) => Some(a)
    case BurnRow(a, _) => Some(a)
    case SpendRow(a) => Some(a)
    case Confirm(a) => Some(a)
    case Execute(a) => Some(a)
    case ChangeArgs(a, _) => Some(a)
    case Crash(a) => Some(a)
  }

  function NextTable(w: World, s: Step): Table {
    if Issues(w, s).Some? then Exec(Issues(w, s).value, w.table) else w.table
  }

  function NextAgents(w: World, s: Step): map<nat, Agent> {
    if s.Ask? then w.agents[s.a := Agent(Drafted(s.id, s.args, w.clock, s.expires), s.tool, s.args, s.args)]
    else if Actor(s).Some? && Actor(s).value in w.agents then
      var a := Actor(s).value;
      var g := w.agents[a];
      w.agents[a := Agent(Moves(w, s, g), g.tool, if s.ChangeArgs? then s.args else g.args, g.asked)]
    else w.agents
  }

  /** A step that is not enabled does nothing. */
  function Next(p: Policy, w: World, s: Step): World {
    if !Enabled(p, w, s) then w
    else
      World(
        if s.Tick? then s.now else w.clock,
        NextTable(w, s),
        NextAgents(w, s),
        if s.InsertRow? && w.agents[s.a].phase.id !in w.table then w.owner[w.agents[s.a].phase.id := s.a] else w.owner,
        if s.Review? && s.approved && Changes(Issues(w, s).value, s.id, w.table)
        then w.approvals + [Approval(s.id, s.reviewer, s.moment)] else w.approvals,
        if s.Execute? then
          var g := w.agents[s.a];
          w.executions + [Execution(s.a, g.phase.id, g.tool, g.args)]
        else w.executions,
        if s.CallUngated? then w.ungated + [s.tool] else w.ungated)
  }

  function After(p: Policy, w: World, steps: seq<Step>): World {
    if steps == [] then w else Next(p, After(p, w, steps[..|steps| - 1]), steps[|steps| - 1])
  }

  // ---------------------------------------------------------------- the invariant

  /** Every live call holds its own request, the one it inserted, for its own tool. */
  ghost predicate Ownership(w: World) {
    && w.owner.Keys == w.table.Keys
    && (forall id :: id in w.owner ==> w.owner[id] in w.agents && !w.agents[w.owner[id]].phase.Drafted?)
    && forall a :: a in w.agents && w.agents[a].phase.Holds() ==> Owns(w, a, w.agents[a].phase.id)
  }

  ghost predicate Owns(w: World, a: nat, id: string)
    requires a in w.agents
  {
    id in w.table && id in w.owner && w.owner[id] == a && w.table[id].tool == w.agents[a].tool
  }

  /** A call about to execute has spent its request, for the very arguments it will run with, and only just. */
  ghost predicate Spendings(w: World) {
    forall a :: a in w.agents ==> MaySpend(w, a, w.agents[a].phase)
  }

  ghost predicate MaySpend(w: World, a: nat, phase: Phase)
    requires a in w.agents
  {
    match phase
    case Spending(id) => id in w.table && w.table[id].fingerprint == FingerprintArgs(w.agents[a].args)
    case Confirming(id) => SpentBy(w, a, id)
    case Granted(id) => SpentBy(w, a, id)
    case _ => true
  }

  ghost predicate SpentBy(w: World, a: nat, id: string)
    requires a in w.agents
  {
    && id in w.table && w.table[id].status == Consumed
    && w.table[id].fingerprint == FingerprintArgs(w.agents[a].args)
    && forall i :: 0 <= i < |w.executions| ==> w.executions[i].id != id
  }

  /** What one execution rests on. */
  ghost predicate Backed(w: World, e: Execution) {
    && e.id in w.table && w.table[e.id].status == Consumed
    && w.table[e.id].tool == e.tool && w.table[e.id].fingerprint == FingerprintArgs(e.args)
    && e.id in w.owner && w.owner[e.id] == e.agent
    && e.agent in w.agents && !w.agents[e.agent].phase.Holds()
  }

  ghost predicate Executions(w: World) {
    && (forall i :: 0 <= i < |w.executions| ==> Backed(w, w.executions[i]))
    && forall i, j :: 0 <= i < j < |w.executions| ==> w.executions[i].id != w.executions[j].id
  }

  /** A reviewer's yes that took, recorded in the row for good. */
  ghost predicate Recorded(w: World, y: Approval) {
    && y.id in w.table && w.table[y.id].status != Pending && y.at.Instant() < w.table[y.id].expiresAt.Instant()
    && y.at.Instant() <= w.clock.Instant()
  }

  ghost predicate ApprovedBy(w: World, r: Request, id: string, y: Approval) {
    y.id == id && r.decidedBy == Some(y.reviewer) && r.decidedAt == Some(y.at)
  }

  ghost predicate Approvals(w: World) {
    && (forall j :: 0 <= j < |w.approvals| ==> Recorded(w, w.approvals[j]))
    && (forall i, j :: 0 <= i < j < |w.approvals| ==> w.approvals[i].id != w.approvals[j].id)
    && forall id :: id in w.table && (w.table[id].status == Approved || w.table[id].status == Consumed) ==>
         HasApproval(w, id)
  }

  /** Only tools policy lets through reach the gate, and only ungated tools go round it. */
  ghost predicate Routed(p: Policy, w: World) {
    && (forall a :: a in w.agents ==>
          w.agents[a].tool in p.catalog && p.RequiresApproval(w.agents[a].tool) && w.agents[a].tool !in p.forbidden)
    && (forall i :: 0 <= i < |w.executions| ==>
          p.RequiresApproval(w.executions[i].tool) && w.executions[i].tool !in p.forbidden)
    && forall i :: 0 <= i < |w.ungated| ==> w.ungated[i] in p.catalog && !p.RequiresApproval(w.ungated[i])
  }

  ghost predicate Inv(p: Policy, w: World) {
    && AuditedTable(w.table) && Ownership(w) && Spendings(w) && Executions(w) && Approvals(w) && Routed(p, w)
  }

  // --------------------------------------------------------------- one step keeps it

  lemma StepEvolves(p: Policy, w: World, s: Step)
    ensures Evolves(w.table, Next(p, w, s).table)
    ensures AuditedTable(w.table) ==> AuditedTable(Next(p, w, s).table)
  {
    if Enabled(p, w, s) && Issues(w, s).Some? {
      ExecEvolves(Issues(w, s).value, w.table);
      if AuditedTable(w.table) {
        ExecKeepsAudit(Issues(w, s).value, w.table);
      }
    }
  }

  /** One row across one step. */
  lemma StepRow(p: Policy, w: World, s: Step, id: string)
    requires id in w.table
    ensures id in Next(p, w, s).table && RowEvolves(w.table[id], Next(p, w, s).table[id])
  {
    StepEvolves(p, w, s);
  }

  /** Whether this step adds a row. */
  predicate Inserts(p: Policy, w: World, s: Step) {
    Enabled(p, w, s) && s.InsertRow? && w.agents[s.a].phase.id !in w.table
  }

  lemma StepTableKeys(p: Policy, w: World, s: Step)
    ensures var v := Next(p, w, s);
      if Inserts(p, w, s) then
        var g := w.agents[s.a];
        v.table == w.table[g.phase.id := NewRequest(g.tool, g.phase.args, g.phase.created, g.phase.expires)]
      else v.table.Keys == w.table.Keys
  {
    hide Matches, Assign, DateTime.Valid, DateTime.Instant, DateTime.Day;
    if Enabled(p, w, s) && Issues(w, s).Some? && !s.InsertRow? {
      var q := Issues(w, s).value;
      assert !q.Insert?;
      assert Exec(q, w.table).Keys == w.table.Keys;
    }
  }

  lemma InsertedIsPending(p: Policy, w: World, s: Step, id: string)
    requires s.InsertRow? && id in w.table
    ensures id in Next(p, w, s).table && Next(p, w, s).table[id] == w.table[id]
  {
    hide NextAgents, Matches, Assign, Changes, DateTime.Valid, DateTime.Instant, DateTime.Day;
  }

  /** Only a call that is about to spend makes a row consumed, and only a reviewer's yes makes one approved. */
  lemma StepStatus(p: Policy, w: World, s: Step, id: string)
    requires id in w.table
    ensures var v := Next(p, w, s);
      && id in v.table
      && (v.table[id].status == Consumed && w.table[id].status != Consumed ==>
            Enabled(p, w, s) && s.SpendRow? && w.agents[s.a].phase == Spending(id))
      && (v.table[id].status == Approved && w.table[id].status != Approved ==>
            Enabled(p, w, s) && s.Review? && s.approved && s.id == id
            && Changes(Decide(id, true, s.reviewer, s.note, s.moment), id, w.table))
  {
    hide Exec, Matches, Assign, Changes, NextAgents, DateTime.Valid, DateTime.Instant, DateTime.Day;
    StepTableKeys(p, w, s);
    if Enabled(p, w, s) && Issues(w, s).Some? {
      if s.InsertRow? {
        InsertedIsPending(p, w, s, id);
      } else {
        WhatItTakes(Issues(w, s).value, w.table, id);
      }
    }
  }

  /** Whether this step is a reviewer's yes that takes. */
  predicate Approves(p: Policy, w: World, s: Step) {
    && Enabled(p, w, s) && s.Review? && s.approved
    && Changes(Decide(s.id, true, s.reviewer, s.note, s.moment), s.id, w.table)
  }

  lemma StepRecords(p: Policy, w: World, s: Step)
    ensures var v := Next(p, w, s);
      && v.approvals == (if Approves(p, w, s)
                         then w.approvals + [Approval(s.id, s.reviewer, s.moment)] else w.approvals)
      && v.executions == (if Enabled(p, w, s) && s.Execute?
                          then var g := w.agents[s.a]; w.executions + [Execution(s.a, g.phase.id, g.tool, g.args)]
                          else w.executions)
      && v.owner == (if Inserts(p, w, s) then w.owner[w.agents[s.a].phase.id := s.a] else w.owner)
  {
    hide NextTable, NextAgents, Changes, DateTime.Valid, DateTime.Instant, DateTime.Day;
  }

  lemma StepCalls(p: Policy, w: World, s: Step)
    ensures var v := Next(p, w, s);
      && w.clock.Instant() <= v.clock.Instant()
      && v.agents.Keys == w.agents.Keys + (if Enabled(p, w, s) && s.Ask? then {s.a} else {})
      && (Enabled(p, w, s) && s.Ask? ==> v.agents[s.a].phase.Drafted?)
  {
    hide NextTable, Moves, Changes, Issues, DateTime.Valid, DateTime.Instant, DateTime.Day;
  }

  lemma StepHistory(p: Policy, w: World, s: Step)
    ensures var v := Next(p, w, s);
      && v.approvals == (if Approves(p, w, s)
                         then w.approvals + [Approval(s.id, s.reviewer, s.moment)] else w.approvals)
      && v.executions == (if Enabled(p, w, s) && s.Execute?
                          then var g := w.agents[s.a]; w.executions + [Execution(s.a, g.phase.id, g.tool, g.args)]
                          else w.executions)
      && v.owner == (if Inserts(p, w, s) then w.owner[w.agents[s.a].phase.id := s.a] else w.owner)
      && w.clock.Instant() <= v.clock.Instant()
      && v.agents.Keys == w.agents.Keys + (if Enabled(p, w, s) && s.Ask? then {s.a} else {})
      && (Enabled(p, w, s) && s.Ask? ==> v.agents[s.a].phase.Drafted?)
  {
    hide Next, DateTime.Instant;
    StepRecords(p, w, s);
    StepCalls(p, w, s);
  }

  /** A step moves one call; the others are as they were. */
  lemma StepOthers(p: Policy, w: World, s: Step, a: nat)
    requires a in w.agents
    ensures var v := Next(p, w, s);
      && a in v.agents && v.agents[a].tool == w.agents[a].tool
      && (Actor(s) != Some(a) ==> v.agents[a] == w.agents[a])
      && (Actor(s) == Some(a) && Enabled(p, w, s) ==>
            v.agents[a].phase == Moves(w, s, w.agents[a])
            && v.agents[a].args == if s.ChangeArgs? then s.args else w.agents[a].args)
      && v.agents[a].asked == w.agents[a].asked
      && (!w.agents[a].phase.Drafted? ==> !v.agents[a].phase.Drafted?)
      && (!w.agents[a].phase.Drafted? && !w.agents[a].phase.Holds() ==> !v.agents[a].phase.Holds())
      && (v.agents[a].phase.Holds() ==>
            (w.agents[a].phase.Holds() && w.agents[a].phase.id == v.agents[a].phase.id)
            || (Inserts(p, w, s) && s.a == a && w.agents[a].phase.id == v.agents[a].phase.id))
  {
    hide NextTable, Issues, Changes, DateTime.Valid, DateTime.Instant, DateTime.Day;
  }

  lemma StepKeepsOwnership(p: Policy, w: World, s: Step)
    requires Ownership(w)
    ensures Ownership(Next(p, w, s))
  {
    var v := Next(p, w, s);
    StepTableKeys(p, w, s);
    StepHistory(p, w, s);
    hide Next, NextAgents, NextTable, Issues, Exec, Moves, Actor, DateTime.Valid, DateTime.Instant, DateTime.Day;
    forall id | id in v.owner ensures v.owner[id] in v.agents && !v.agents[v.owner[id]].phase.Drafted? {
      if id in w.owner {
        StepOthers(p, w, s, v.owner[id]);
      } else {
        InserterStarts(p, w, s);
      }
    }
    forall a | a in v.agents && v.agents[a].phase.Holds() ensures Owns(v, a, v.agents[a].phase.id) {
      assert a in w.agents;
      CallKeepsOwning(p, w, s, a);
    }
  }

  lemma InserterStarts(p: Policy, w: World, s: Step)
    requires Inserts(p, w, s)
    ensures s.a in Next(p, w, s).agents && !Next(p, w, s).agents[s.a].phase.Drafted?
  {
    hide NextTable, Issues, Changes;
  }

  lemma CallKeepsOwning(p: Policy, w: World, s: Step, a: nat)
    requires a in w.agents && a in Next(p, w, s).agents && Next(p, w, s).agents[a].phase.Holds()
    requires w.agents[a].phase.Holds() ==> Owns(w, a, w.agents[a].phase.id)
    ensures Owns(Next(p, w, s), a, Next(p, w, s).agents[a].phase.id)
  {
    StepOthers(p, w, s, a);
    StepTableKeys(p, w, s);
    StepHistory(p, w, s);
    hide Next, NextAgents, NextTable, Issues, Exec, Moves, Actor, DateTime.Valid, DateTime.Instant, DateTime.Day;
    if w.agents[a].phase.Holds() {
      StepRow(p, w, s, w.agents[a].phase.id);
    }
  }

  lemma StepKeepsSpendings(p: Policy, w: World, s: Step)
    requires Ownership(w) && Spendings(w) && Executions(w)
    ensures Spendings(Next(p, w, s))
  {
    var v := Next(p, w, s);
    StepHistory(p, w, s);
    hide NextTable, Issues, Exec, Moves, Actor, DateTime.Valid, DateTime.Instant, DateTime.Day;
    forall a | a in v.agents ensures MaySpend(v, a, v.agents[a].phase) {
      if a in w.agents {
        StepOthers(p, w, s, a);
        CallKeepsSpending(p, w, s, a);
      }
    }
  }

  lemma CallKeepsSpending(p: Policy, w: World, s: Step, a: nat)
    requires Ownership(w) && Spendings(w) && Executions(w)
    requires a in w.agents && a in Next(p, w, s).agents
    ensures MaySpend(Next(p, w, s), a, Next(p, w, s).agents[a].phase)
  {
    var v := Next(p, w, s);
    StepOthers(p, w, s, a);
    var phase := v.agents[a].phase;
    if phase.Spending? || phase.Confirming? || phase.Granted? {
      CallStillHolds(p, w, s, a);
      CallMayStillSpend(p, w, s, a);
    }
  }

  /** The only ways towards executing: compare, spend, confirm, in this order. */
  lemma TowardsExecution(w: World, s: Step, g: Agent)
    requires var m := Moves(w, s, g); m.Spending? || m.Confirming? || m.Granted?
    ensures var f, m := g.phase, Moves(w, s, g);
      && f.Holds() && f.id == m.id
      && (m.Spending? ==>
            f == m || (f.Comparing? && m.id in w.table && w.table[m.id].fingerprint == FingerprintArgs(g.args)))
      && (m.Confirming? ==> f == m || (f == Spending(m.id) && s.SpendRow? && Changes(Spend(m.id), m.id, w.table)))
      && (m.Granted? ==> f == m || f == Confirming(m.id))
  {
    hide Changes, DateTime.Valid, DateTime.Instant, DateTime.Day;
  }

  /** From the comparison on, the arguments stay. */
  lemma ArgsAreFixed(p: Policy, w: World, s: Step, a: nat)
    requires a in w.agents && Actor(s) == Some(a) && Enabled(p, w, s)
    ensures s.SpendRow? ==> s == SpendRow(a)
    ensures s.ChangeArgs? ==> !Moves(w, s, w.agents[a]).Spending? && !Moves(w, s, w.agents[a]).Confirming?
                              && !Moves(w, s, w.agents[a]).Granted?
  {
    hide Changes, DateTime.Valid, DateTime.Instant, DateTime.Day;
  }

  lemma CallStillHolds(p: Policy, w: World, s: Step, a: nat)
    requires Ownership(w) && a in w.agents && a in Next(p, w, s).agents
    requires var f := Next(p, w, s).agents[a].phase; f.Spending? || f.Confirming? || f.Granted?
    ensures var f, g := w.agents[a].phase, Next(p, w, s).agents[a].phase;
      && Owns(w, a, g.id) && f.Holds() && f.id == g.id
      && Next(p, w, s).agents[a].args == w.agents[a].args
      && (g.Spending? ==> (f == g || (f.Comparing? && w.table[g.id].fingerprint == FingerprintArgs(w.agents[a].args))))
      && (g.Confirming? ==>
            f == g || (f == Spending(g.id) && Enabled(p, w, s) && s == SpendRow(a)
                       && Changes(Spend(g.id), g.id, w.table)))
      && (g.Granted? ==> (f == g || f == Confirming(g.id)))
  {
    StepOthers(p, w, s, a);
    if !Enabled(p, w, s) {
      assert Next(p, w, s) == w;
    } else if Actor(s) == Some(a) {
      ArgsAreFixed(p, w, s, a);
      TowardsExecution(w, s, w.agents[a]);
    }
    hide Next, NextAgents, NextTable, Enabled, Issues, Changes, Moves, Actor, Inserts;
    hide DateTime.Valid, DateTime.Instant, DateTime.Day;
    assert w.agents[a].phase.Holds() ==> Owns(w, a, w.agents[a].phase.id);
  }

  lemma CallMayStillSpend(p: Policy, w: World, s: Step, a: nat)
    requires Ownership(w) && Spendings(w) && Executions(w) && a in w.agents && a in Next(p, w, s).agents
    requires var f := Next(p, w, s).agents[a].phase; f.Spending? || f.Confirming? || f.Granted?
    ensures MaySpend(Next(p, w, s), a, Next(p, w, s).agents[a].phase)
  {
    var v := Next(p, w, s);
    CallStillHolds(p, w, s, a);
    hide Next, NextAgents, NextTable, Enabled, Issues, Changes, Exec, Matches, Assign, Moves, Actor, Executions;
    hide Ownership;
    hide DateTime.Valid, DateTime.Instant, DateTime.Day;
    var f, g := w.agents[a].phase, v.agents[a].phase;
    StepRow(p, w, s, g.id);
    assert MaySpend(w, a, f);
    if g.Confirming? && f != g {
      SpendingConsumes(p, w, s, g.id);
    }
    if !g.Spending? {
      NotExecuted(p, w, s, a, g.id);
    }
  }

  /** While the owner of a request has yet to execute, nobody has executed on it. */
  lemma NotExecuted(p: Policy, w: World, s: Step, a: nat, id: string)
    requires Ownership(w) && Executions(w) && a in w.agents && a in Next(p, w, s).agents
    requires Owns(w, a, id) && w.agents[a].phase.Holds() && Next(p, w, s).agents[a].phase.Holds()
    ensures forall i :: 0 <= i < |Next(p, w, s).executions| ==> Next(p, w, s).executions[i].id != id
  {
    var v := Next(p, w, s);
    StepHistory(p, w, s);
    hide Next, NextAgents, NextTable, Issues, Changes, Exec, Matches, Assign, Moves, Actor, Inserts, Approves;
    hide DateTime.Valid, DateTime.Instant, DateTime.Day;
    if Enabled(p, w, s) && s.Execute? {
      ExecutorFinishes(p, w, s);
      assert Owns(w, s.a, w.agents[s.a].phase.id);
    }
    forall i | 0 <= i < |w.executions| ensures w.executions[i].id != id {
      assert Backed(w, w.executions[i]);
    }
  }

  lemma ExecutorFinishes(p: Policy, w: World, s: Step)
    requires Enabled(p, w, s) && s.Execute?
    ensures s.a in Next(p, w, s).agents && Next(p, w, s).agents[s.a].phase == Finished
  {
    hide NextTable, Issues, Changes, DateTime.Valid, DateTime.Instant, DateTime.Day;
  }

  lemma SpendingConsumes(p: Policy, w: World, s: Step, id: string)
    requires Enabled(p, w, s) && s.SpendRow? && w.agents[s.a].phase == Spending(id)
    requires Changes(Spend(id), id, w.table)
    ensures id in Next(p, w, s).table && Next(p, w, s).table[id].status == Consumed && w.table[id].status == Approved
  {
    hide NextAgents, DateTime.Valid, DateTime.Instant, DateTime.Day;
  }

  lemma ExecutorReady(p: Policy, w: World, s: Step)
    requires Ownership(w) && Spendings(w) && Enabled(p, w, s) && s.Execute?
    ensures w.agents[s.a].phase.Holds()
    ensures MaySpend(w, s.a, w.agents[s.a].phase) && Owns(w, s.a, w.agents[s.a].phase.id)
  {
    hide DateTime.Valid, DateTime.Instant, DateTime.Day;
    assert w.agents[s.a].phase.Granted?;
  }

  lemma NewExecutionBacked(p: Policy, w: World, s: Step)
    requires Enabled(p, w, s) && s.Execute?
    requires MaySpend(w, s.a, w.agents[s.a].phase) && Owns(w, s.a, w.agents[s.a].phase.id)
    ensures var g := w.agents[s.a];
      && Backed(Next(p, w, s), Execution(s.a, g.phase.id, g.tool, g.args))
      && forall i :: 0 <= i < |w.executions| ==> w.executions[i].id != g.phase.id
  {
    hide Moves, Changes, Exec, DateTime.Valid, DateTime.Instant, DateTime.Day;
    ExecutorFinishes(p, w, s);
    assert Next(p, w, s).table == w.table && Next(p, w, s).owner == w.owner;
  }

  lemma OldExecutionBacked(p: Policy, w: World, s: Step, e: Execution)
    requires Ownership(w) && Backed(w, e)
    ensures Backed(Next(p, w, s), e)
  {
    StepEvolves(p, w, s);
    StepHistory(p, w, s);
    StepTableKeys(p, w, s);
    StepOthers(p, w, s, e.agent);
    hide Next, NextAgents, NextTable, Enabled, Issues, Changes, Exec, Matches, Assign, Moves, Actor, DateTime.Valid;
    hide DateTime.Instant, DateTime.Day;
    assert RowEvolves(w.table[e.id], Next(p, w, s).table[e.id]);
  }

  lemma StepKeepsExecutions(p: Policy, w: World, s: Step)
    requires Ownership(w) && Spendings(w) && Executions(w)
    ensures Executions(Next(p, w, s))
  {
    var v := Next(p, w, s);
    StepHistory(p, w, s);
    hide Next, NextAgents, NextTable, Enabled, Issues, Changes, Exec, Matches, Assign, Moves, Actor, Inserts;
    hide Approves, Backed, MaySpend, Owns, DateTime.Valid, DateTime.Instant, DateTime.Day;
    if Enabled(p, w, s) && s.Execute? {
      ExecutorReady(p, w, s);
      NewExecutionBacked(p, w, s);
    }
    forall i | 0 <= i < |v.executions| ensures Backed(v, v.executions[i]) {
      if i < |w.executions| {
        OldExecutionBacked(p, w, s, w.executions[i]);
      }
    }
  }

  lemma StepKeepsApprovals(p: Policy, w: World, s: Step)
    requires Approvals(w)
    ensures Approvals(Next(p, w, s))
  {
    hide Next, Enabled, Changes, Exec, Matches, Assign, Recorded, HasApproval, DateTime.Instant;
    var v := Next(p, w, s);
    StepHistory(p, w, s);
    if Approves(p, w, s) {
      DecisionTook(p, w, s);
      OnlyOneYes(w, s.id);
    }
    forall j | 0 <= j < |v.approvals| ensures Recorded(v, v.approvals[j]) {
      if j < |w.approvals| {
        RecordStays(p, w, s, w.approvals[j]);
      }
    }
    forall id | id in v.table && (v.table[id].status == Approved || v.table[id].status == Consumed)
      ensures HasApproval(v, id)
    {
      ApprovedWasThere(p, w, s, id);
      RowStaysApproved(p, w, s, id);
    }
  }

  /** A request that is still pending has no yes recorded. */
  lemma OnlyOneYes(w: World, id: string)
    requires Approvals(w) && id in w.table && w.table[id].status == Pending
    ensures forall j :: 0 <= j < |w.approvals| ==> w.approvals[j].id != id
  {
    hide HasApproval, DateTime.Instant;
    forall j | 0 <= j < |w.approvals| ensures w.approvals[j].id != id {
      assert Recorded(w, w.approvals[j]);
    }
  }

  lemma RecordStays(p: Policy, w: World, s: Step, y: Approval)
    requires Recorded(w, y)
    ensures Recorded(Next(p, w, s), y)
  {
    hide Next, DateTime.Instant;
    StepHistory(p, w, s);
    StepRow(p, w, s, y.id);
  }

  lemma ApprovedWasThere(p: Policy, w: World, s: Step, id: string)
    requires id in Next(p, w, s).table
    requires Next(p, w, s).table[id].status == Approved || Next(p, w, s).table[id].status == Consumed
    ensures id in w.table
  {
    hide Next, DateTime.Instant;
    StepTableKeys(p, w, s);
  }

  /** A yes that took was given before the deadline, to a request that was still pending. */
  lemma DecisionTook(p: Policy, w: World, s: Step)
    requires Approves(p, w, s)
    ensures var v := Next(p, w, s);
      && s.id in w.table && w.table[s.id].status == Pending
      && Recorded(v, Approval(s.id, s.reviewer, s.moment))
      && ApprovedBy(v, v.table[s.id], s.id, Approval(s.id, s.reviewer, s.moment))
  {
    hide NextAgents, DateTime.Valid, DateTime.Instant, DateTime.Day;
    DeadlineGuards(s.id, w.table[s.id], true, s.reviewer, s.note, s.moment);
  }

  ghost predicate HasApproval(w: World, id: string)
    requires id in w.table
  {
    exists j :: 0 <= j < |w.approvals| && ApprovedBy(w, w.table[id], id, w.approvals[j])
  }

  lemma ApprovalStays(w: World, v: World, id: string)
    requires id in w.table && id in v.table && HasApproval(w, id)
    requires SameDecision(w.table[id], v.table[id]) && w.approvals <= v.approvals
    ensures HasApproval(v, id)
  {
    var j :| 0 <= j < |w.approvals| && ApprovedBy(w, w.table[id], id, w.approvals[j]);
    assert ApprovedBy(v, v.table[id], id, v.approvals[j]);
  }

  lemma ApprovalArrives(p: Policy, w: World, s: Step)
    requires Approves(p, w, s)
    ensures s.id in Next(p, w, s).table && HasApproval(Next(p, w, s), s.id)
  {
    DecisionTook(p, w, s);
    StepHistory(p, w, s);
    hide Next, Approves, Recorded, DateTime.Valid, DateTime.Instant, DateTime.Day;
    var v := Next(p, w, s);
    assert v.approvals[|w.approvals|] == Approval(s.id, s.reviewer, s.moment);
  }

  lemma RowStaysApproved(p: Policy, w: World, s: Step, id: string)
    requires id in w.table && id in Next(p, w, s).table
    requires w.table[id].status == Approved || w.table[id].status == Consumed ==> HasApproval(w, id)
    requires Next(p, w, s).table[id].status == Approved || Next(p, w, s).table[id].status == Consumed
    ensures HasApproval(Next(p, w, s), id)
  {
    StepStatus(p, w, s, id);
    StepRow(p, w, s, id);
    hide Next, NextAgents, NextTable, Enabled, Issues, Changes, Exec, Matches, Assign, Moves, Actor, HasApproval;
    hide DateTime.Valid, DateTime.Instant, DateTime.Day;
    var v := Next(p, w, s);
    if w.table[id].status == Approved || w.table[id].status == Consumed {
      StepHistory(p, w, s);
      ApprovalStays(w, v, id);
    } else if v.table[id].status == Approved {
      ApprovalArrives(p, w, s);
    } else {
      SpendingNeedsApproval(p, w, s, id);
    }
  }

  lemma SpendingNeedsApproval(p: Policy, w: World, s: Step, id: string)
    requires id in w.table && w.table[id].status != Approved
    requires Enabled(p, w, s) && s.SpendRow? && w.agents[s.a].phase == Spending(id)
    ensures Next(p, w, s).table == w.table
  {
    UnmatchedExec(Spend(id), w.table);
  }

  lemma StepKeepsRouted(p: Policy, w: World, s: Step)
    requires Routed(p, w)
    ensures Routed(p, Next(p, w, s))
  {
    hide Next, Moves, Actor, DateTime.Instant;
    var v := Next(p, w, s);
    StepHistory(p, w, s);
    StepUngated(p, w, s);
    forall a | a in v.agents
      ensures v.agents[a].tool in p.catalog && p.RequiresApproval(v.agents[a].tool) && v.agents[a].tool !in p.forbidden
    {
      if a in w.agents {
        StepOthers(p, w, s, a);
      } else {
        AskedIsGated(p, w, s);
      }
    }
  }

  lemma StepUngated(p: Policy, w: World, s: Step)
    ensures Next(p, w, s).ungated == if Enabled(p, w, s) && s.CallUngated? then w.ungated + [s.tool] else w.ungated
  {
    hide NextTable, NextAgents, Issues, Changes, DateTime.Instant;
  }

  lemma AskedIsGated(p: Policy, w: World, s: Step)
    requires Enabled(p, w, s) && s.Ask?
    ensures s.a in Next(p, w, s).agents && Next(p, w, s).agents[s.a].tool == s.tool
    ensures s.tool in p.catalog && p.RequiresApproval(s.tool) && s.tool !in p.forbidden
  {
    hide NextTable, Issues, Changes, Moves, DateTime.Instant, Policy.RequiresApproval;
  }

  lemma StepKeepsInv(p: Policy, w: World, s: Step)
    requires Inv(p, w)
    ensures Inv(p, Next(p, w, s))
  {
    StepEvolves(p, w, s);
    StepKeepsOwnership(p, w, s);
    StepKeepsSpendings(p, w, s);
    StepKeepsExecutions(p, w, s);
    StepKeepsApprovals(p, w, s);
    StepKeepsRouted(p, w, s);
  }

  // ------------------------------------------------------------------ whole runs

  lemma {:induction false} RunKeepsInv(p: Policy, clock: UtcTime, steps: seq<Step>)
    ensures Inv(p, After(p, Initial(clock), steps))
  {
    if steps != [] {
      RunKeepsInv(p, clock, steps[..|steps| - 1]);
      StepKeepsInv(p, After(p, Initial(clock), steps[..|steps| - 1]), steps[|steps| - 1]);
    }
  }

  /** A yes a reviewer gave, before the deadline, to this execution's request: same tool, same arguments. */
  ghost predicate Authorizes(w: World, y: Approval, e: Execution) {
    && y.id == e.id && e.id in w.table
    && w.table[e.id].tool == e.tool && w.table[e.id].args == e.args
    && w.table[e.id].decidedBy == Some(y.reviewer) && w.table[e.id].decidedAt == Some(y.at)
    && y.at.Instant() < w.table[e.id].expiresAt.Instant()
    && w.table[e.id].status == Consumed
  }

  ghost predicate Authorized(w: World, e: Execution) {
    exists j :: 0 <= j < |w.approvals| && Authorizes(w, w.approvals[j], e)
  }

  /**
   Main result. However calls, reviewers, sweepers, clocks and crashes interleave, each gated execution rests on a
   reviewer's yes of its own: one yes, one execution, the arguments the human saw, decided before the deadline.
   */
  lemma OneYesOneExecution(p: Policy, clock: UtcTime, steps: seq<Step>)
    ensures var w := After(p, Initial(clock), steps);
      && (forall i :: 0 <= i < |w.executions| ==> Authorized(w, w.executions[i]))
      && (forall i, k :: 0 <= i < k < |w.executions| ==> w.executions[i].id != w.executions[k].id)
      && (forall j, k :: 0 <= j < k < |w.approvals| ==> w.approvals[j].id != w.approvals[k].id)
  {
    RunKeepsInv(p, clock, steps);
    var w := After(p, Initial(clock), steps);
    forall i | 0 <= i < |w.executions| ensures Authorized(w, w.executions[i]) {
      ExecutionAuthorized(p, w, w.executions[i]);
    }
  }

  lemma ExecutionAuthorized(p: Policy, w: World, e: Execution)
    requires Inv(p, w) && Backed(w, e)
    ensures Authorized(w, e)
  {
    hide DateTime.Valid, DateTime.Instant, DateTime.Day;
    assert HasApproval(w, e.id) && Audited(w.table[e.id]);
    var j :| 0 <= j < |w.approvals| && ApprovedBy(w, w.table[e.id], e.id, w.approvals[j]);
    assert Recorded(w, w.approvals[j]);
    assert Authorizes(w, w.approvals[j], e);
  }

  /** Policy decides the road: nothing forbidden is ever run through the gate, nothing gated is ever run round it. */
  lemma PolicyRoutesEveryCall(p: Policy, clock: UtcTime, steps: seq<Step>)
    ensures var w := After(p, Initial(clock), steps);
      && (forall i :: 0 <= i < |w.executions| ==> w.executions[i].tool !in p.forbidden)
      && (forall i :: 0 <= i < |w.ungated| ==>
            && w.ungated[i] in p.catalog && w.ungated[i] !in p.writeTools
            && p.catalog[w.ungated[i]].destructive != Some(true)
            && (w.ungated[i] in p.readOnlyTools || p.catalog[w.ungated[i]].readOnly == Some(true)
                || !p.unknownNeedApproval))
  {
    RunKeepsInv(p, clock, steps);
  }

  /** The tool has been run, through the gate or round it. */
  ghost predicate Ran(w: World, tool: string) {
    || (exists i :: 0 <= i < |w.ungated| && w.ungated[i] == tool)
    || (exists i :: 0 <= i < |w.executions| && w.executions[i].tool == tool)
  }

  /**
   The list of forbidden tools is consulted by the gate alone. So a forbidden tool can be run exactly when it never
   comes to the gate: when it is in the catalog and policy clears it.
   */
  lemma ForbiddenRunsExactlyWhenCleared(p: Policy, clock: UtcTime, tool: string)
    requires tool in p.forbidden
    ensures (exists steps :: Ran(After(p, Initial(clock), steps), tool))
      <==> tool in p.catalog && !p.RequiresApproval(tool)
  {
    hide Next;
    if tool in p.catalog && !p.RequiresApproval(tool) {
      ClearedToolRuns(p, clock, tool);
    }
    forall steps | Ran(After(p, Initial(clock), steps), tool) ensures tool in p.catalog && !p.RequiresApproval(tool) {
      RunKeepsInv(p, clock, steps);
    }
  }

  lemma ClearedToolRuns(p: Policy, clock: UtcTime, tool: string)
    requires tool in p.catalog && !p.RequiresApproval(tool)
    ensures Ran(After(p, Initial(clock), [CallUngated(tool)]), tool)
  {
    hide NextTable, NextAgents;
    assert [CallUngated(tool)][..0] == [];
    assert After(p, Initial(clock), []) == Initial(clock);
    var w := After(p, Initial(clock), [CallUngated(tool)]);
    assert w.ungated == [tool] && w.ungated[0] == tool;
  }

  /** The call that made request `id` has ended, by a crash or otherwise, without spending it. */
  ghost predicate Abandoned(w: World, id: string) {
    && id in w.table && w.table[id].status != Consumed
    && id in w.owner && w.owner[id] in w.agents
    && !w.agents[w.owner[id]].phase.Drafted? && !w.agents[w.owner[id]].phase.Holds()
    && forall i :: 0 <= i < |w.executions| ==> w.executions[i].id != id
  }

  lemma StaysAbandoned(p: Policy, w: World, s: Step, id: string)
    requires Inv(p, w) && Abandoned(w, id)
    ensures Abandoned(Next(p, w, s), id)
  {
    StepRow(p, w, s, id);
    StepOthers(p, w, s, w.owner[id]);
    AbandonedNotSpent(p, w, s, id);
    OwnersStay(p, w, s, id);
    hide Next, NextAgents, NextTable, Issues, Changes, Exec, Moves, Actor, Inv, RowEvolves, Enabled;
    hide DateTime.Valid, DateTime.Instant, DateTime.Day;
  }

  lemma OwnersStay(p: Policy, w: World, s: Step, id: string)
    requires Ownership(w) && id in w.owner
    ensures id in Next(p, w, s).owner && Next(p, w, s).owner[id] == w.owner[id]
  {
    StepHistory(p, w, s);
    hide Next, NextAgents, NextTable, Issues, Changes, Exec, Moves, Actor, DateTime.Valid, DateTime.Instant;
    hide DateTime.Day;
  }

  lemma AbandonedNotSpent(p: Policy, w: World, s: Step, id: string)
    requires Ownership(w) && Abandoned(w, id)
    ensures id in Next(p, w, s).table && Next(p, w, s).table[id].status != Consumed
    ensures forall i :: 0 <= i < |Next(p, w, s).executions| ==> Next(p, w, s).executions[i].id != id
  {
    StepStatus(p, w, s, id);
    StepHistory(p, w, s);
    hide Next, NextAgents, NextTable, Issues, Changes, Exec, Moves, Actor, DateTime.Valid, DateTime.Instant;
    hide DateTime.Day;
    if Enabled(p, w, s) && (s.Execute? || s.SpendRow?) {
      assert w.agents[s.a].phase.Holds() ==> Owns(w, s.a, w.agents[s.a].phase.id);
    }
  }

  lemma {:induction false} RunLeavesAbandoned(p: Policy, w: World, steps: seq<Step>, id: string)
    requires Inv(p, w) && Abandoned(w, id)
    ensures Inv(p, After(p, w, steps)) && Abandoned(After(p, w, steps), id)
  {
    if steps != [] {
      var v := After(p, w, steps[..|steps| - 1]);
      RunLeavesAbandoned(p, w, steps[..|steps| - 1], id);
      StepKeepsInv(p, v, steps[|steps| - 1]);
      StaysAbandoned(p, v, steps[|steps| - 1], id);
    }
  }

  /**
   A request whose process died before spending it is never spent or executed, not even when a reviewer approves it
   later: a resumed run asks afresh, because a call spends only the request it created.
   */
  lemma DeadRequestsAreNeverSpent(p: Policy, clock: UtcTime, before: seq<Step>, later: seq<Step>, id: string)
    requires Abandoned(After(p, Initial(clock), before), id)
    ensures Abandoned(After(p, After(p, Initial(clock), before), later), id)
  {
    RunKeepsInv(p, clock, before);
    RunLeavesAbandoned(p, After(p, Initial(clock), before), later, id);
  }
}

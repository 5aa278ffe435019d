/**
 The gate does not buy safety by never acting. A call whose request is approved in time gets to execute it, once,
 however others step in between its own steps.
 */
module GateProgress {
  import opened Wrappers
  import opened Timestamps
  import opened ApprovalTable
  import opened GateProtocol
  import opened GateSteps

  /** The call is at this phase, and its request has this status. */
  ghost predicate Stands(w: World, a: nat, phase: Phase, id: string, status: Status) {
    && In(w, a, phase) && id in w.table && w.table[id].status == status
    && w.table[id].fingerprint == FingerprintArgs(w.agents[a].args)
  }

  /** Nothing has executed in between, and the call still has the tool and arguments it had. */
  ghost predicate Undisturbed(w: World, v: World, a: nat) {
    && a in w.agents && a in v.agents && v.executions == w.executions
    && v.agents[a].tool == w.agents[a].tool && v.agents[a].args == w.agents[a].args
  }

  lemma ReviewApproves(p: Policy, w: World, a: nat, phase: Phase, id: string, s: Step)
    requires Stands(w, a, phase, id, Pending)
    requires s.Review? && s.id == id && s.approved && s.moment.Instant() <= w.clock.Instant()
    requires s.moment.Instant() < w.table[id].expiresAt.Instant()
    ensures Stands(Next(p, w, s), a, phase, id, Approved) && Undisturbed(w, Next(p, w, s), a)
  {
    hide DateTime.Valid, DateTime.Instant, DateTime.Day;
    DeadlineGuards(id, w.table[id], true, s.reviewer, s.note, s.moment);
  }

  /** A read does nothing to a request that is approved already. */
  lemma PollLeavesApproval(p: Policy, w: World, a: nat, id: string, moment: UtcTime)
    requires Stands(w, a, Expiring(id), id, Approved) && moment.Instant() <= w.clock.Instant()
    ensures Stands(Next(p, w, PollExpire(a, moment)), a, Reading(id), id, Approved)
    ensures Undisturbed(w, Next(p, w, PollExpire(a, moment)), a)
  {
    UnmatchedExec(ExpireOne(id, moment), w.table);
    hide Exec, Matches, Changes, Assign, DateTime.Valid, DateTime.Instant, DateTime.Day;
  }

  lemma PollSeesApproval(p: Policy, w: World, a: nat, id: string)
    requires Stands(w, a, Reading(id), id, Approved)
    ensures Stands(Next(p, w, PollRead(a)), a, Comparing(id), id, Approved)
    ensures Undisturbed(w, Next(p, w, PollRead(a)), a)
  {
    hide Exec, Matches, Changes, Assign, DateTime.Valid, DateTime.Instant, DateTime.Day;
  }

  lemma NotificationLeavesApproval(p: Policy, w: World, a: nat, id: string, ref: Option<string>)
    requires Stands(w, a, Notifying(id), id, Approved)
    ensures Stands(Next(p, w, Notified(a, ref)), a, Expiring(id), id, Approved)
    ensures Undisturbed(w, Next(p, w, Notified(a, ref)), a)
  {
    hide DateTime.Valid, DateTime.Instant, DateTime.Day, TextLess, Iso;
  }

  lemma FailureLeavesApproval(p: Policy, w: World, a: nat, id: string)
    requires Stands(w, a, Notifying(id), id, Approved)
    ensures Stands(Next(p, w, NotifyRaised(a)), a, FailDeciding(id), id, Approved)
    ensures Undisturbed(w, Next(p, w, NotifyRaised(a)), a)
  {
    hide Exec, Matches, Changes, Assign, DateTime.Valid, DateTime.Instant, DateTime.Day;
  }

  /** Failing closed comes too late for a request that is approved already. */
  lemma RefusalMisses(p: Policy, w: World, a: nat, id: string, note: Option<string>, moment: UtcTime)
    requires Stands(w, a, FailDeciding(id), id, Approved) && moment.Instant() <= w.clock.Instant()
    ensures Stands(Next(p, w, FailDecide(a, note, moment)), a, FailExpiring(id), id, Approved)
    ensures Undisturbed(w, Next(p, w, FailDecide(a, note, moment)), a)
  {
    hide Exec, Assign, DateTime.Valid, DateTime.Instant, DateTime.Day, TextLess, Iso;
    UnmatchedExec(Decide(id, false, SYSTEM, note, moment), w.table);
  }

  lemma FailExpiryLeavesApproval(p: Policy, w: World, a: nat, id: string, moment: UtcTime)
    requires Stands(w, a, FailExpiring(id), id, Approved) && moment.Instant() <= w.clock.Instant()
    ensures Stands(Next(p, w, FailExpire(a, moment)), a, FailReading(id), id, Approved)
    ensures Undisturbed(w, Next(p, w, FailExpire(a, moment)), a)
  {
    UnmatchedExec(ExpireOne(id, moment), w.table);
    hide Exec, Matches, Changes, Assign, DateTime.Valid, DateTime.Instant, DateTime.Day;
  }

  lemma FailReadSeesApproval(p: Policy, w: World, a: nat, id: string)
    requires Stands(w, a, FailReading(id), id, Approved)
    ensures Stands(Next(p, w, FailRead(a)), a, Comparing(id), id, Approved)
    ensures Undisturbed(w, Next(p, w, FailRead(a)), a)
  {
    hide Exec, Matches, Changes, Assign, DateTime.Valid, DateTime.Instant, DateTime.Day;
  }

  lemma ComparisonPasses(p: Policy, w: World, a: nat, id: string)
    requires Stands(w, a, Comparing(id), id, Approved)
    ensures Stands(Next(p, w, Compare(a)), a, Spending(id), id, Approved) && Undisturbed(w, Next(p, w, Compare(a)), a)
  {
    hide Exec, Matches, Changes, Assign, DateTime.Valid, DateTime.Instant, DateTime.Day;
  }

  lemma SpendingTakes(p: Policy, w: World, a: nat, id: string)
    requires Stands(w, a, Spending(id), id, Approved)
    ensures Stands(Next(p, w, SpendRow(a)), a, Confirming(id), id, Consumed)
    ensures Undisturbed(w, Next(p, w, SpendRow(a)), a)
  {
    hide DateTime.Valid, DateTime.Instant, DateTime.Day;
  }

  lemma ConfirmationPasses(p: Policy, w: World, a: nat, id: string)
    requires Stands(w, a, Confirming(id), id, Consumed)
    ensures Stands(Next(p, w, Confirm(a)), a, Granted(id), id, Consumed) && Undisturbed(w, Next(p, w, Confirm(a)), a)
  {
    hide Exec, Matches, Changes, Assign, DateTime.Valid, DateTime.Instant, DateTime.Day;
  }

  lemma GrantExecutes(p: Policy, w: World, a: nat, id: string)
    requires Stands(w, a, Granted(id), id, Consumed)
    ensures var v := Next(p, w, Execute(a));
      v.table == w.table && v.agents == w.agents[a := w.agents[a].(phase := Finished)]
    ensures Next(p, w, Execute(a)).executions == w.executions + [Execution(a, id, w.agents[a].tool, w.agents[a].args)]
  {
    hide Exec, Matches, Changes, Assign, DateTime.Valid, DateTime.Instant, DateTime.Day;
  }

  // ------------------------------------------------- with others stepping in between

  /** The most steps of its own a call has left before it has executed. */
  function Left(phase: Phase): nat {
    match phase
    case Notifying(_) => 8
    case FailDeciding(_) => 7
    case FailExpiring(_) => 6
    case FailReading(_) => 5
    case Expiring(_) => 6
    case Reading(_) => 5
    case Comparing(_) => 4
    case Spending(_) => 3
    case Confirming(_) => 2
    case Granted(_) => 1
    case _ => 0
  }

  /** What the call's request is by then: approved, and once it has been spent, consumed. */
  function Due(phase: Phase): Status {
    if phase.Confirming? || phase.Granted? then Consumed else Approved
  }

  /** A call on its way: its own request approved, then spent, then executed, for the tool and arguments it has. */
  ghost predicate OnCourse(w: World, a: nat, id: string) {
    && a in w.agents && id in w.table && id in w.owner && w.owner[id] == a
    && if w.agents[a].phase == Finished then Execution(a, id, w.agents[a].tool, w.agents[a].args) in w.executions
       else Left(w.agents[a].phase) > 0 && w.agents[a].phase.id == id
            && Stands(w, a, w.agents[a].phase, id, Due(w.agents[a].phase))
  }

  predicate Disturbs(s: Step, a: nat) {
    s == Crash(a) || (s.ChangeArgs? && s.a == a)
  }

  /** The call itself makes a step. */
  predicate Own(p: Policy, w: World, s: Step, a: nat) {
    Enabled(p, w, s) && Actor(s) == Some(a)
  }

  /** Only the burning of its own request takes an approval away. */
  lemma OnlyBurningRejects(p: Policy, w: World, s: Step, id: string)
    requires id in w.table && w.table[id].status == Approved
    ensures var v := Next(p, w, s);
      id in v.table && (v.table[id].status == Rejected ==>
        Enabled(p, w, s) && s.BurnRow? && w.agents[s.a].phase == Burning(id))
  {
    hide Exec, Matches, Assign, Changes, NextAgents, DateTime.Valid, DateTime.Instant, DateTime.Day;
    if Enabled(p, w, s) && Issues(w, s).Some? {
      if s.InsertRow? {
        InsertedIsPending(p, w, s, id);
      } else {
        WhatItTakes(Issues(w, s).value, w.table, id);
      }
    }
  }

  /** What others do leaves an approved request approved and a spent one spent. */
  lemma OthersKeepStatus(p: Policy, w: World, s: Step, a: nat, id: string)
    requires Ownership(w) && id in w.table && id in w.owner && w.owner[id] == a && !Own(p, w, s, a)
    requires w.table[id].status == Approved || w.table[id].status == Consumed
    ensures var v := Next(p, w, s);
      id in v.table && v.table[id].status == w.table[id].status && v.table[id].fingerprint == w.table[id].fingerprint
  {
    StepRow(p, w, s, id);
    StepStatus(p, w, s, id);
    if w.table[id].status == Approved {
      OnlyBurningRejects(p, w, s, id);
    }
    SpenderOwns(p, w, s);
    hide Next, Issues, Changes, DateTime.Valid, DateTime.Instant, DateTime.Day;
  }

  lemma SpenderOwns(p: Policy, w: World, s: Step)
    requires Ownership(w)
    ensures Enabled(p, w, s) && (s.BurnRow? || s.SpendRow?) ==>
      var id := w.agents[s.a].phase.id; id in w.owner && w.owner[id] == s.a && Own(p, w, s, s.a)
  {
    hide DateTime.Valid, DateTime.Instant, DateTime.Day;
    if Enabled(p, w, s) && (s.BurnRow? || s.SpendRow?) {
      assert Owns(w, s.a, w.agents[s.a].phase.id);
    }
  }

  /** What a call needs to stay on its way: itself, its request and the record of executions. */
  lemma CourseCarries(w: World, v: World, a: nat, id: string)
    requires OnCourse(w, a, id) && a in v.agents && v.agents[a] == w.agents[a] && w.executions <= v.executions
    requires id in v.table && id in v.owner && v.owner[id] == a && v.table[id].fingerprint == w.table[id].fingerprint
    requires w.agents[a].phase == Finished || v.table[id].status == w.table[id].status
    ensures OnCourse(v, a, id)
  {
  }

  lemma CourseFacts(w: World, a: nat, id: string)
    requires OnCourse(w, a, id)
    ensures a in w.agents && id in w.table && id in w.owner && w.owner[id] == a
    ensures w.agents[a].phase == Finished || w.table[id].status == Approved || w.table[id].status == Consumed
  {
  }

  lemma RecordGrows(p: Policy, w: World, s: Step, id: string)
    requires id in w.table
    ensures w.executions <= Next(p, w, s).executions
    ensures id in Next(p, w, s).table && Next(p, w, s).table[id].fingerprint == w.table[id].fingerprint
  {
    StepHistory(p, w, s);
    StepRow(p, w, s, id);
    hide Next, Inserts, Approves, Enabled, DateTime.Valid, DateTime.Instant, DateTime.Day;
  }

  lemma OthersKeepCourse(p: Policy, w: World, s: Step, a: nat, id: string)
    requires Inv(p, w) && OnCourse(w, a, id) && !Own(p, w, s, a)
    ensures OnCourse(Next(p, w, s), a, id) && Next(p, w, s).agents[a] == w.agents[a]
  {
    hide Next, Own, OnCourse, Ownership, Spendings, Executions, Approvals, Routed, AuditedTable, DateTime.Instant;
    CourseFacts(w, a, id);
    OthersStepAside(p, w, s, a);
    StepOwner(p, w, s, id);
    RecordGrows(p, w, s, id);
    if w.agents[a].phase != Finished {
      OthersKeepStatus(p, w, s, a, id);
    }
    CourseCarries(w, Next(p, w, s), a, id);
  }

  lemma OthersStepAside(p: Policy, w: World, s: Step, a: nat)
    requires a in w.agents && !Own(p, w, s, a)
    ensures a in Next(p, w, s).agents && Next(p, w, s).agents[a] == w.agents[a]
  {
    StepOthers(p, w, s, a);
    if !Enabled(p, w, s) {
      assert Next(p, w, s) == w;
    }
    hide Next, NextAgents, NextTable, Enabled, Moves;
  }

  /** In each phase there is one thing for the call to do; but whether its notifier raises is not up to it. */
  lemma OwnStepIs(p: Policy, w: World, s: Step, a: nat)
    requires Own(p, w, s, a) && !Disturbs(s, a)
    ensures a in w.agents
    ensures match w.agents[a].phase
      case Notifying(_) => (s.Notified? && s == Notified(a, s.ref)) || s == NotifyRaised(a)
      case FailDeciding(_) =>
        s.FailDecide? && s == FailDecide(a, s.note, s.moment) && s.moment.Instant() <= w.clock.Instant()
      case FailExpiring(_) => s.FailExpire? && s == FailExpire(a, s.moment) && s.moment.Instant() <= w.clock.Instant()
      case FailReading(_) => s == FailRead(a)
      case Expiring(_) => s.PollExpire? && s == PollExpire(a, s.moment) && s.moment.Instant() <= w.clock.Instant()
      case Reading(_) => s == PollRead(a)
      case Comparing(_) => s == Compare(a)
      case Spending(_) => s == SpendRow(a)
      case Confirming(_) => s == Confirm(a)
      case Granted(_) => s == Execute(a)
      case Finished => false
      case _ => true
  {
    hide DateTime.Valid, DateTime.Instant, DateTime.Day;
  }

  /** A call that stands at a phase on the way, its request as it is due there, is on course. */
  lemma Arrives(v: World, a: nat, phase: Phase, id: string)
    requires Left(phase) > 0 && phase.id == id && Stands(v, a, phase, id, Due(phase))
    requires id in v.owner && v.owner[id] == a
    ensures OnCourse(v, a, id) && v.agents[a].phase == phase
  {
  }

  lemma OwnStepAdvances(p: Policy, w: World, s: Step, a: nat, id: string)
    requires OnCourse(w, a, id) && Own(p, w, s, a) && !Disturbs(s, a)
    ensures var v := Next(p, w, s);
      && a in v.agents && v.agents[a].tool == w.agents[a].tool && v.agents[a].args == w.agents[a].args
      && OnCourse(v, a, id) && Left(v.agents[a].phase) + 1 <= Left(w.agents[a].phase)
  {
    hide Next, Own, Enabled, DateTime.Instant, Actor, Stands;
    OwnStepIs(p, w, s, a);
    CourseFacts(w, a, id);
    StepOwner(p, w, s, id);
    var v := Next(p, w, s);
    if w.agents[a].phase == Granted(id) {
      GrantExecutes(p, w, a, id);
    } else {
      var phase := OneStepOn(p, w, s, a, id);
      hide OnCourse;
      Arrives(v, a, phase, id);
    }
  }

  /** Where a step of its own takes a call on its way. */
  lemma OneStepOn(p: Policy, w: World, s: Step, a: nat, id: string) returns (phase: Phase)
    requires OnCourse(w, a, id) && Own(p, w, s, a) && !Disturbs(s, a) && w.agents[a].phase != Granted(id)
    ensures Left(phase) > 0 && phase.id == id && Left(phase) + 1 <= Left(w.agents[a].phase)
    ensures Stands(Next(p, w, s), a, phase, id, Due(phase)) && Undisturbed(w, Next(p, w, s), a)
  {
    hide Next, Own, Enabled, DateTime.Instant, Actor, Stands, Undisturbed;
    OwnStepIs(p, w, s, a);
    match w.agents[a].phase {
      case Notifying(_) =>
        if s.Notified? {
          phase := Expiring(id);
          NotificationLeavesApproval(p, w, a, id, s.ref);
        } else {
          phase := FailDeciding(id);
          FailureLeavesApproval(p, w, a, id);
        }
      case FailDeciding(_) =>
        phase := FailExpiring(id);
        RefusalMisses(p, w, a, id, s.note, s.moment);
      case FailExpiring(_) =>
        phase := FailReading(id);
        FailExpiryLeavesApproval(p, w, a, id, s.moment);
      case FailReading(_) =>
        phase := Comparing(id);
        FailReadSeesApproval(p, w, a, id);
      case Expiring(_) =>
        phase := Reading(id);
        PollLeavesApproval(p, w, a, id, s.moment);
      case Reading(_) =>
        phase := Comparing(id);
        PollSeesApproval(p, w, a, id);
      case Comparing(_) =>
        phase := Spending(id);
        ComparisonPasses(p, w, a, id);
      case Spending(_) =>
        phase := Confirming(id);
        SpendingTakes(p, w, a, id);
      case Confirming(_) =>
        phase := Granted(id);
        ConfirmationPasses(p, w, a, id);
      case _ => assert false;
    }
  }

  lemma StepOwner(p: Policy, w: World, s: Step, id: string)
    requires id in w.table && id in w.owner
    ensures id in Next(p, w, s).owner && Next(p, w, s).owner[id] == w.owner[id]
  {
    StepHistory(p, w, s);
    hide Next, NextAgents, NextTable, Issues, Changes, Exec, Moves, Actor, DateTime.Valid, DateTime.Instant;
  }

  /** Until it has executed, the call can always step. */
  lemma NeverStuck(p: Policy, w: World, a: nat, id: string)
    requires OnCourse(w, a, id) && Left(w.agents[a].phase) > 0
    ensures exists s :: Own(p, w, s, a) && !Disturbs(s, a)
  {
    hide DateTime.Valid, DateTime.Instant, DateTime.Day;
    var s := match w.agents[a].phase
      case Notifying(_) => Notified(a, None)
      case FailDeciding(_) => FailDecide(a, None, w.clock)
      case FailExpiring(_) => FailExpire(a, w.clock)
      case FailReading(_) => FailRead(a)
      case Expiring(_) => PollExpire(a, w.clock)
      case Reading(_) => PollRead(a)
      case Comparing(_) => Compare(a)
      case Spending(_) => SpendRow(a)
      case Confirming(_) => Confirm(a)
      case _ => Execute(a);
    assert Own(p, w, s, a) && !Disturbs(s, a);
  }

  /** How many steps of a run are the call's own. */
  function OwnSteps(p: Policy, w: World, steps: seq<Step>, a: nat): nat {
    if steps == [] then 0
    else
      OwnSteps(p, w, steps[..|steps| - 1], a)
      + if Own(p, After(p, w, steps[..|steps| - 1]), steps[|steps| - 1], a) then 1 else 0
  }

  /** The call is not crashed, and its arguments are let be. */
  predicate LetBe(steps: seq<Step>, a: nat) {
    forall i :: 0 <= i < |steps| ==> !Disturbs(steps[i], a)
  }

  lemma {:induction false} CourseIsKept(p: Policy, w: World, steps: seq<Step>, a: nat, id: string)
    requires Inv(p, w) && OnCourse(w, a, id) && LetBe(steps, a)
    ensures var v := After(p, w, steps);
      && Inv(p, v) && OnCourse(v, a, id)
      && v.agents[a].tool == w.agents[a].tool && v.agents[a].args == w.agents[a].args
      && Left(v.agents[a].phase) + OwnSteps(p, w, steps, a) <= Left(w.agents[a].phase)
  {
    hide Inv, OnCourse, Next, Own, Left;
    if steps == [] {
      assert OwnSteps(p, w, steps, a) == 0;
    } else {
      var front, s := steps[..|steps| - 1], steps[|steps| - 1];
      var u := After(p, w, front);
      CourseIsKept(p, w, front, a, id);
      StepKeepsInv(p, u, s);
      if Own(p, u, s, a) {
        OwnStepAdvances(p, u, s, a, id);
      } else {
        OthersKeepCourse(p, u, s, a, id);
      }
    }
  }

  /** Exactly one execution of this request, and it is this one. */
  ghost predicate ExecutedOnce(w: World, e: Execution) {
    && e in w.executions
    && forall i, j :: 0 <= i < j < |w.executions| ==> !(w.executions[i].id == e.id && w.executions[j].id == e.id)
  }

  /** A call has looked at its request before it goes on to spend it, and what it saw was decided. */
  ghost predicate Looked(w: World) {
    forall a :: a in w.agents && PastTheGate(w.agents[a].phase) ==>
      w.agents[a].phase.id in w.table && w.table[w.agents[a].phase.id].status != Pending
  }

  predicate PastTheGate(phase: Phase) {
    phase.Comparing? || phase.Burning? || phase.Spending? || phase.Confirming? || phase.Granted?
  }

  /** The only way past the gate is an approval that was read. */
  lemma PassesOnApproval(w: World, s: Step, g: Agent)
    requires PastTheGate(Moves(w, s, g))
    ensures var m := Moves(w, s, g);
      && g.phase.Holds() && g.phase.id == m.id
      && (PastTheGate(g.phase) || (m.id in w.table && w.table[m.id].status == Approved))
  {
    hide Changes, DateTime.Valid, DateTime.Instant, DateTime.Day;
  }

  lemma StepKeepsLooked(p: Policy, w: World, s: Step)
    requires Looked(w)
    ensures Looked(Next(p, w, s))
  {
    hide Next, Enabled, Moves, Inserts, Approves, Actor, DateTime.Instant;
    var v := Next(p, w, s);
    StepHistory(p, w, s);
    forall a | a in v.agents && PastTheGate(v.agents[a].phase)
      ensures v.agents[a].phase.id in v.table && v.table[v.agents[a].phase.id].status != Pending
    {
      assert a in w.agents;
      CallStillLooked(p, w, s, a);
    }
  }

  lemma CallStillLooked(p: Policy, w: World, s: Step, a: nat)
    requires Looked(w) && a in w.agents && a in Next(p, w, s).agents && PastTheGate(Next(p, w, s).agents[a].phase)
    ensures var id := Next(p, w, s).agents[a].phase.id;
      id in Next(p, w, s).table && Next(p, w, s).table[id].status != Pending
  {
    hide Next, NextTable, NextAgents, Moves, Inserts, DateTime.Instant;
    StepOthers(p, w, s, a);
    if Own(p, w, s, a) {
      PassesOnApproval(w, s, w.agents[a]);
    } else {
      OthersStepAside(p, w, s, a);
    }
    StepRow(p, w, s, Next(p, w, s).agents[a].phase.id);
  }

  lemma {:induction false} AlwaysLooked(p: Policy, clock: UtcTime, steps: seq<Step>)
    ensures Looked(After(p, Initial(clock), steps))
  {
    hide Next;
    if steps != [] {
      AlwaysLooked(p, clock, steps[..|steps| - 1]);
      StepKeepsLooked(p, After(p, Initial(clock), steps[..|steps| - 1]), steps[|steps| - 1]);
    }
  }

  /** In each phase in which its request can be pending, the call is on course once the request is approved. */
  predicate Waits(phase: Phase, id: string) {
    || phase == Notifying(id) || phase == FailDeciding(id) || phase == FailExpiring(id) || phase == FailReading(id)
    || phase == Expiring(id) || phase == Reading(id)
  }

  /** What has come of an approved call: it has executed, exactly once, or it can go on. */
  ghost predicate ExecutesOrGoesOn(p: Policy, w: World, a: nat, e: Execution) {
    ExecutedOnce(w, e) || exists s :: Own(p, w, s, a) && !Disturbs(s, a)
  }

  lemma CourseLeadsToExecution(p: Policy, w: World, steps: seq<Step>, a: nat, id: string)
    requires Inv(p, w) && OnCourse(w, a, id) && LetBe(steps, a)
    ensures var v := After(p, w, steps); var e := Execution(a, id, w.agents[a].tool, w.agents[a].args);
      && OwnSteps(p, w, steps, a) <= Left(w.agents[a].phase)
      && (OwnSteps(p, w, steps, a) == Left(w.agents[a].phase) ==> ExecutedOnce(v, e))
      && ExecutesOrGoesOn(p, v, a, e)
  {
    hide Next, Own, Inv, OnCourse, ExecutedOnce, Left;
    CourseIsKept(p, w, steps, a, id);
    var v := After(p, w, steps);
    CourseFacts(v, a, id);
    if Left(v.agents[a].phase) == 0 {
      NothingLeft(p, v, a, id);
    } else {
      NeverStuck(p, v, a, id);
    }
  }

  /**
   A call whose request is approved in time executes it, whenever the yes comes: while reviewers are still being told,
   while the gate is failing closed, or while the call waits. Whatever others do in between, in any order, a call that
   still has the arguments it asked with has executed exactly once, with just these, or it can make another step of its
   own; and it makes at most `Left` of them.
   */
  lemma ApprovedCallExecutes(p: Policy, clock: UtcTime, before: seq<Step>, a: nat, id: string, s: Step,
                             steps: seq<Step>)
    requires var w := After(p, Initial(clock), before);
      && a in w.agents && w.agents[a].phase.Holds() && w.agents[a].phase.id == id
      && w.agents[a].args == w.agents[a].asked
      && id in w.table && w.table[id].status == Pending
      && s.Review? && s.id == id && s.approved && s.moment.Instant() <= w.clock.Instant()
      && s.moment.Instant() < w.table[id].expiresAt.Instant()
    requires LetBe(steps, a)
    ensures var w := After(p, Initial(clock), before); var u := Next(p, w, s);
      var left, e := Left(w.agents[a].phase), Execution(a, id, w.agents[a].tool, w.agents[a].asked);
      && w.table[id].args == w.agents[a].asked && w.table[id].tool == w.agents[a].tool
      && OwnSteps(p, u, steps, a) <= left <= 8
      && (OwnSteps(p, u, steps, a) == left ==> ExecutedOnce(After(p, u, steps), e))
      && ExecutesOrGoesOn(p, After(p, u, steps), a, e)
  {
    hide Next, Own, Inv, OnCourse, ExecutedOnce, After, Looked, ExecutesOrGoesOn, AskedAs, DateTime.Instant;
    var w := After(p, Initial(clock), before);
    var phase := w.agents[a].phase;
    RunKeepsInv(p, clock, before);
    AlwaysLooked(p, clock, before);
    RequestsCarryWhatWasAsked(p, clock, before);
    AskedStands(w, a, id);
    PendingMeansWaiting(w, a, phase, id);
    ReviewedIsOnCourse(p, w, a, phase, id, s);
    StepKeepsInv(p, w, s);
    CourseLeadsToExecution(p, Next(p, w, s), steps, a, id);
  }

  lemma AskedStands(w: World, a: nat, id: string)
    requires AllAskedAs(w) && a in w.agents && w.agents[a].phase.Holds() && w.agents[a].phase.id == id
    requires w.agents[a].args == w.agents[a].asked && id in w.table && w.table[id].status == Pending
    ensures Stands(w, a, w.agents[a].phase, id, Pending)
    ensures w.table[id].args == w.agents[a].asked && w.table[id].tool == w.agents[a].tool
  {
    assert AskedAs(w, a);
  }

  lemma PendingMeansWaiting(w: World, a: nat, phase: Phase, id: string)
    requires Looked(w) && Stands(w, a, phase, id, Pending) && phase.Holds() && phase.id == id
    ensures Waits(phase, id) && Left(phase) <= 8
  {
    assert !PastTheGate(phase);
  }

  lemma ReviewedIsOnCourse(p: Policy, w: World, a: nat, phase: Phase, id: string, s: Step)
    requires Inv(p, w) && Stands(w, a, phase, id, Pending) && Waits(phase, id)
    requires s.Review? && s.id == id && s.approved && s.moment.Instant() <= w.clock.Instant()
    requires s.moment.Instant() < w.table[id].expiresAt.Instant()
    ensures OnCourse(Next(p, w, s), a, id)
    ensures a in w.agents && a in Next(p, w, s).agents && Next(p, w, s).agents[a] == w.agents[a]
    ensures w.agents[a].phase == phase
  {
    hide Next, Inv, OnCourse, Stands, Undisturbed, DateTime.Instant;
    StandsThere(w, a, phase, id);
    HolderOwns(p, w, a);
    ReviewApproves(p, w, a, phase, id, s);
    StepOwner(p, w, s, id);
    ReviewMovesNobody(p, w, s);
    Arrives(Next(p, w, s), a, phase, id);
  }

  lemma StandsThere(w: World, a: nat, phase: Phase, id: string)
    requires Stands(w, a, phase, id, Pending)
    ensures a in w.agents && w.agents[a].phase == phase && id in w.table
  {
  }

  lemma HolderOwns(p: Policy, w: World, a: nat)
    requires Inv(p, w) && a in w.agents && w.agents[a].phase.Holds()
    ensures Owns(w, a, w.agents[a].phase.id)
  {
    hide Spendings, Executions, Approvals, Routed, AuditedTable, Owns;
  }

  lemma ReviewMovesNobody(p: Policy, w: World, s: Step)
    requires s.Review?
    ensures Next(p, w, s).agents == w.agents
  {
    hide NextTable, Issues, Changes, DateTime.Instant, DateTime.Valid;
  }

  lemma NothingLeft(p: Policy, w: World, a: nat, id: string)
    requires Inv(p, w) && OnCourse(w, a, id) && Left(w.agents[a].phase) == 0
    ensures ExecutedOnce(w, Execution(a, id, w.agents[a].tool, w.agents[a].args))
  {
    hide Ownership, Spendings, Approvals, Routed, AuditedTable;
  }
}

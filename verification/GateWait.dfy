/**
 The two loops of the gate that face the outside world: asking, when the notifier may fail, and waiting, while
 reviewers, sweepers and other processes do as they please between any two statements.
 */
module GateWait {
  import opened Wrappers
  import opened Timestamps
  import opened ApprovalTable
  import opened Linearization

  /** What one turn of the waiting loop meets: two clock readings, and everybody else's statements. */
  datatype Turn = Turn(
    moment: UtcTime,            // read for `get`
    between: seq<Statement>,    // run between the two statements of `get`
    later: UtcTime,             // read to see how long is left
    during: seq<Statement>)     // run while this process sleeps

  /** How `notify` ended. */
  datatype Notice = Posted(ref: Option<string>) | Raised

  /** How long a turn sleeps: never past the limit, and not at all when it has passed. */
  function Slept(turn: Turn, limit: UtcTime, poll: nat): nat {
    var remaining := limit.Instant() - turn.later.Instant();
    if remaining <= 0 then 0 else Min(poll, remaining)
  }

  /** The clock never goes back, and a sleep lasts at least as long as it was asked to. */
  ghost predicate FairClock(turns: nat -> Turn, limit: UtcTime, poll: nat) {
    forall k: nat :: FairTurn(turns(k), turns(k + 1), limit, poll)
  }

  ghost predicate FairTurn(turn: Turn, next: Turn, limit: UtcTime, poll: nat) {
    && turn.moment.Instant() <= turn.later.Instant()
    && turn.later.Instant() + Slept(turn, limit, poll) <= next.moment.Instant()
  }

  /** The number of polls that fit before the deadline, rounded up. */
  function Polls(start: UtcTime, expires: UtcTime, poll: nat): nat
    requires poll > 0
  {
    var left := expires.Instant() - start.Instant();
    if left <= 0 then 0 else (left + poll - 1) / poll
  }

  lemma {:induction false} ReplayEvolves(t: Table, run: seq<Statement>)
    ensures Evolves(t, Replay(t, run))
  {
    RunEvolves(t, run, 0, |run|);
    assert run[..0] == [] && run[..|run|] == run;
  }

  /** A request read by `get` at a moment at or past its deadline is not pending. */
  lemma ReadAfterExpiry(t: Table, id: string, now: UtcTime, others: seq<Statement>)
    requires id in t
    ensures var u := Replay(Exec(ExpireOne(id, now), t), others);
      id in u && Evolves(t, u) && (t[id].expiresAt.Instant() <= now.Instant() ==> u[id].status != Pending)
  {
    var v := Exec(ExpireOne(id, now), t);
    ExecEvolves(ExpireOne(id, now), t);
    ReplayEvolves(v, others);
    EvolvesTransitive(t, v, Replay(v, others));
    DeadlineGuards(id, t[id], true, SYSTEM, None, now);
    assert RowEvolves(t[id], v[id]) && RowEvolves(v[id], Replay(v, others)[id]);
  }

  /** That many polls reach the deadline, and one fewer does not. */
  lemma PollsReachIt(start: UtcTime, expires: UtcTime, poll: nat)
    requires poll > 0
    ensures expires.Instant() <= start.Instant() + Polls(start, expires, poll) * poll
    ensures start.Instant() < expires.Instant() ==>
      start.Instant() + (Polls(start, expires, poll) - 1) * poll < expires.Instant()
    ensures expires.Instant() <= start.Instant() ==> Polls(start, expires, poll) == 0
  {
    hide DateTime.Instant, DateTime.Valid;
    var left := expires.Instant() - start.Instant();
    if left > 0 {
      RoundedUp(left, poll);
    }
  }

  lemma RoundedUp(left: nat, poll: nat)
    requires left > 0 && poll > 0
    ensures var q := (left + poll - 1) / poll; (q - 1) * poll < left <= q * poll
  {
    var q := (left + poll - 1) / poll;
    assert (q - 1) * poll == q * poll - poll;
  }

  /** A sleep is a poll, or what is left before the limit if that is less; past the limit there is none. */
  lemma SleepsNoLonger(turn: Turn, limit: UtcTime, poll: nat)
    ensures turn.later.Instant() < limit.Instant() ==>
      && (Slept(turn, limit, poll) == poll || turn.later.Instant() + Slept(turn, limit, poll) == limit.Instant())
      && Slept(turn, limit, poll) <= poll && turn.later.Instant() + Slept(turn, limit, poll) <= limit.Instant()
    ensures limit.Instant() <= turn.later.Instant() ==> Slept(turn, limit, poll) == 0
  {
    hide DateTime.Instant, DateTime.Valid;
  }

  /** `n` polls of at least `poll` each, from before the deadline, end no later than `Polls` of them. */
  lemma PollsSuffice(start: UtcTime, expires: UtcTime, poll: nat, n: nat)
    requires poll > 0 && start.Instant() + n * poll < expires.Instant()
    ensures n + 1 <= Polls(start, expires, poll)
  {
    hide DateTime.Instant, DateTime.Valid;
    var left := expires.Instant() - start.Instant();
    assert n * poll + 1 <= left;
    DivisionIsMonotone(n, poll, left);
  }

  lemma DivisionIsMonotone(n: nat, poll: nat, left: nat)
    requires poll > 0 && n * poll < left
    ensures n + 1 <= (left + poll - 1) / poll
  {
    var q := (left + poll - 1) / poll;
    assert q * poll > left - 1;
    assert q <= n ==> q * poll <= n * poll;
  }

  /** The table as one read leaves it: expired if overdue, and others' statements in between. */
  function Read(t: Table, id: string, turn: Turn): Table {
    Replay(Exec(ExpireOne(id, turn.moment), t), turn.between)
  }

  /** The table as the waiter finds it when it wakes for its read number `n`. */
  function Woken(t: Table, id: string, turns: nat -> Turn, n: nat): Table {
    if n == 0 then t else Replay(Read(Woken(t, id, turns, n - 1), id, turns(n - 1)), turns(n - 1).during)
  }

  predicate PendingIn(t: Table, id: string) {
    id in t && t[id].status == Pending
  }

  /** The table failing closed leaves: the request rejected if that could still be, and expired if it was overdue. */
  function Closed(t: Table, id: string, note: string, moment: UtcTime,
                  beforeExpiry: seq<Statement>, beforeRead: seq<Statement>): Table
  {
    if PendingIn(t, id) && moment.Instant() < t[id].expiresAt.Instant()
    then Replay(Exec(Decide(id, false, SYSTEM, Some(note), moment), t), beforeRead)
    else Replay(Exec(ExpireOne(id, moment), Replay(t, beforeExpiry)), beforeRead)
  }

  /** Every one of the first `n` reads finds the request pending. */
  ghost predicate PendingUntil(t: Table, id: string, turns: nat -> Turn, n: int) {
    forall k: nat :: k < n ==> PendingIn(Read(Woken(t, id, turns, k), id, turns(k)), id)
  }

  lemma PendingOneMore(t: Table, id: string, turns: nat -> Turn, n: nat)
    ensures PendingUntil(t, id, turns, n + 1) <==>
      PendingUntil(t, id, turns, n) && PendingIn(Read(Woken(t, id, turns, n), id, turns(n)), id)
  {
    hide Read, Woken, PendingIn;
    assert PendingUntil(t, id, turns, n + 1) ==> PendingIn(Read(Woken(t, id, turns, n), id, turns(n)), id);
  }

  lemma NothingReadYet(t: Table, id: string, turns: nat -> Turn)
    ensures PendingUntil(t, id, turns, 0) && Woken(t, id, turns, 0) == t && Evolves(t, t)
  {
  }

  lemma WokenNext(t: Table, id: string, turns: nat -> Turn, n: nat)
    ensures Woken(t, id, turns, n + 1) == Replay(Read(Woken(t, id, turns, n), id, turns(n)), turns(n).during)
  {
  }

  /** One read, on a table that evolved from the first one: what the waiter needs to know of it. */
  lemma OneRead(t: Table, was: Table, id: string, turn: Turn)
    requires id in t && Evolves(t, was)
    ensures var u := Read(was, id, turn);
      && Evolves(t, u) && id in u && u[id].expiresAt == t[id].expiresAt
      && (t[id].expiresAt.Instant() <= turn.moment.Instant() ==> u[id].status != Pending)
  {
    hide DateTime.Instant, DateTime.Valid, Replay, Exec;
    assert RowEvolves(t[id], was[id]);
    ReadAfterExpiry(was, id, turn.moment, turn.between);
    EvolvesTransitive(t, was, Read(was, id, turn));
    assert RowEvolves(t[id], Read(was, id, turn)[id]);
  }

  lemma {:induction false} WokenEvolves(t: Table, id: string, turns: nat -> Turn, n: nat)
    requires id in t
    ensures Evolves(t, Woken(t, id, turns, n))
  {
    hide Read, Evolves;
    if n == 0 {
      NothingReadYet(t, id, turns);
    } else {
      var before := Woken(t, id, turns, n - 1);
      WokenEvolves(t, id, turns, n - 1);
      OneRead(t, before, id, turns(n - 1));
      WhileAsleep(t, Read(before, id, turns(n - 1)), turns(n - 1).during, id);
    }
  }

  lemma TurnTakesAPoll(turn: Turn, next: Turn, expires: UtcTime, limit: UtcTime, poll: nat)
    requires FairTurn(turn, next, limit, poll) && expires.Instant() <= limit.Instant()
    ensures turn.moment.Instant() + poll <= next.moment.Instant() || expires.Instant() <= next.moment.Instant()
  {
    hide DateTime.Instant, DateTime.Valid;
  }

  /** A request pending after `n` full turns was read early: the turns took that many polls, and time is not up. */
  lemma {:induction false} PendingIsEarly(t: Table, id: string, turns: nat -> Turn, limit: UtcTime, poll: nat, n: nat)
    requires id in t && t[id].expiresAt.Instant() <= limit.Instant() && FairClock(turns, limit, poll)
    requires PendingUntil(t, id, turns, n + 1)
    ensures turns(0).moment.Instant() + n * poll <= turns(n).moment.Instant() < t[id].expiresAt.Instant()
  {
    hide DateTime.Instant, DateTime.Valid, Read, Woken, Evolves, PendingUntil, FairTurn;
    PendingOneMore(t, id, turns, n);
    WokenEvolves(t, id, turns, n);
    OneRead(t, Woken(t, id, turns, n), id, turns(n));
    if n > 0 {
      PendingIsEarly(t, id, turns, limit, poll, n - 1);
      assert FairTurn(turns(n - 1), turns(n - 1 + 1), limit, poll);
      TurnTakesAPoll(turns(n - 1), turns(n), t[id].expiresAt, limit, poll);
      assert n * poll == (n - 1) * poll + poll;
    }
  }

  /** A clock that stands still at the limit. */
  function Stuck(limit: UtcTime): nat -> Turn {
    n => Turn(limit, [], limit, [])
  }

  lemma EarlyReadChangesNothing(t: Table, id: string, limit: UtcTime)
    requires PendingIn(t, id) && limit.Instant() < t[id].expiresAt.Instant()
    ensures Read(t, id, Turn(limit, [], limit, [])) == t && Replay(t, []) == t
  {
    hide DateTime.Instant, DateTime.Valid, TextLess, Iso, Exec;
    DeadlineGuards(id, t[id], true, SYSTEM, None, limit);
    UnmatchedExec(ExpireOne(id, limit), t);
  }

  /** With a limit before the request expires, the waiter reads and reads while the clock stands at the limit. */
  lemma {:induction false} EarlyDeadlineSpins(t: Table, id: string, limit: UtcTime, poll: nat, n: nat)
    requires PendingIn(t, id) && limit.Instant() < t[id].expiresAt.Instant()
    ensures FairClock(Stuck(limit), limit, poll)
    ensures Woken(t, id, Stuck(limit), n) == t && PendingUntil(t, id, Stuck(limit), n)
  {
    hide DateTime.Instant, DateTime.Valid, Replay, Read, PendingUntil;
    if n == 0 {
      NothingReadYet(t, id, Stuck(limit));
    } else {
      EarlyDeadlineSpins(t, id, limit, poll, n - 1);
      EarlyReadChangesNothing(t, id, limit);
      WokenNext(t, id, Stuck(limit), n - 1);
      PendingOneMore(t, id, Stuck(limit), n - 1);
    }
  }

  /** However fair the clock, some read finds the request decided. */
  ghost predicate WaitingEnds(t: Table, id: string, limit: UtcTime, poll: nat) {
    forall turns :: FairClock(turns, limit, poll) ==> exists n: nat :: !PendingUntil(t, id, turns, n)
  }

  /** Exactly when waiting for a pending request is sure to end: when the limit is not before the request expires. */
  lemma WaitingEndsExactly(t: Table, id: string, limit: UtcTime, poll: nat)
    requires PendingIn(t, id) && poll > 0
    ensures WaitingEnds(t, id, limit, poll) <==> t[id].expiresAt.Instant() <= limit.Instant()
  {
    hide DateTime.Instant, DateTime.Valid, PendingUntil, FairClock;
    if t[id].expiresAt.Instant() <= limit.Instant() {
      forall turns | FairClock(turns, limit, poll) ensures exists n: nat :: !PendingUntil(t, id, turns, n) {
        var n: nat := t[id].expiresAt.Instant();
        assert n * poll >= n;
        if PendingUntil(t, id, turns, n + 1) {
          PendingIsEarly(t, id, turns, limit, poll, n);
          assert false;
        }
      }
    } else {
      EarlyDeadlineSpins(t, id, limit, poll, 0);
      forall n: nat ensures PendingUntil(t, id, Stuck(limit), n) {
        EarlyDeadlineSpins(t, id, limit, poll, n);
      }
      assert FairClock(Stuck(limit), limit, poll);
    }
  }

  lemma WhileAsleep(t: Table, was: Table, during: seq<Statement>, id: string)
    requires id in t && Evolves(t, was)
    ensures Evolves(t, Replay(was, during)) && id in Replay(was, during)
  {
    hide Replay;
    ReplayEvolves(was, during);
    EvolvesTransitive(t, was, Replay(was, during));
  }

  /** Failing closed leaves the request decided, whatever others did. */
  lemma ClosedIsDecided(t: Table, id: string, note: string, moment: UtcTime,
                        beforeExpiry: seq<Statement>, beforeRead: seq<Statement>)
    requires id in t
    ensures var u := Closed(t, id, note, moment, beforeExpiry, beforeRead);
      Evolves(t, u) && id in u && u[id].status != Pending
  {
    hide DateTime.Instant, DateTime.Valid, DateTime.Day, TextLess, Iso, Replay;
    var d := Decide(id, false, SYSTEM, Some(note), moment);
    DeadlineGuards(id, t[id], false, SYSTEM, Some(note), moment);
    if PendingIn(t, id) && moment.Instant() < t[id].expiresAt.Instant() {
      ExecEvolves(d, t);
      assert Exec(d, t)[id].status == Rejected;
      DecidedStays(t, Exec(d, t), id, beforeRead);
    } else {
      ReplayEvolves(t, beforeExpiry);
      var t2 := Replay(t, beforeExpiry);
      ReadAfterMiss(t, t2, d);
      DecidedStays(t, Exec(ExpireOne(id, moment), t2), id, beforeRead);
    }
  }

  /** The gate's own refusal, with the reason it gives. */
  predicate RefusedBySystem(r: Request, note: string, moment: UtcTime) {
    r.status == Rejected && r.decidedBy == Some("system") && r.decidedAt == Some(moment) && r.note == Some(note)
  }

  /** A request that is still pending inside its deadline is refused, whatever others do then. */
  lemma PendingIsRefused(t: Table, id: string, note: string, moment: UtcTime,
                         beforeExpiry: seq<Statement>, beforeRead: seq<Statement>)
    requires PendingIn(t, id) && moment.Instant() < t[id].expiresAt.Instant()
    ensures var u := Closed(t, id, note, moment, beforeExpiry, beforeRead);
      id in u && RefusedBySystem(u[id], note, moment)
  {
    hide DateTime.Instant, DateTime.Valid, DateTime.Day, TextLess, Iso, Replay;
    var d := Decide(id, false, SYSTEM, Some(note), moment);
    DeadlineGuards(id, t[id], false, SYSTEM, Some(note), moment);
    var u := Exec(d, t);
    assert RefusedBySystem(u[id], note, moment);
    ReplayEvolves(u, beforeRead);
    assert RowEvolves(u[id], Replay(u, beforeRead)[id]);
  }

  /**
   Undisturbed, a failed notifier turns a request into a refused one exactly when it is still pending inside its
   deadline. Any other stays as it was decided, or expires.
   */
  lemma RefusedExactlyWhenPending(t: Table, id: string, note: string, moment: UtcTime)
    requires id in t
    ensures var r := Closed(t, id, note, moment, [], [])[id];
      && (r.status == Rejected && r != t[id] <==> PendingIn(t, id) && moment.Instant() < t[id].expiresAt.Instant())
      && (r == t[id] <==> t[id].status != Pending)
      && (PendingIn(t, id) && t[id].expiresAt.Instant() <= moment.Instant() ==>
            r == t[id].(status := Expired, decidedAt := Some(moment), decidedBy := Some("system"),
                        note := Some("no response before deadline; denied by default")))
  {
    hide DateTime.Instant, DateTime.Valid, DateTime.Day, TextLess, Iso;
    ClosedIsDecided(t, id, note, moment, [], []);
    DeadlineGuards(id, t[id], false, SYSTEM, Some(note), moment);
    if PendingIn(t, id) && moment.Instant() < t[id].expiresAt.Instant() {
      PendingIsRefused(t, id, note, moment, [], []);
    } else {
      assert Replay(t, []) == t;
      assert Closed(t, id, note, moment, [], []) == Exec(ExpireOne(id, moment), t);
      ExpiryWrites(ExpireOne(id, moment), t, id);
    }
  }

  /**
   A notifier that raises after a reviewer has seen the request and said yes in time: whenever the gate gets to refusing
   it, the request comes back approved.
   */
  lemma RaisedYetApproved(t: Table, id: string, note: string, at: UtcTime, moment: UtcTime)
    requires PendingIn(t, id) && at.Instant() < t[id].expiresAt.Instant()
    ensures var asked := Replay(t, [Decide(id, true, "alice", None, at)]);
      id in asked && var u := Closed(asked, id, note, moment, [], []); id in u && u[id].status == Approved
  {
    hide DateTime.Instant, DateTime.Valid, DateTime.Day, TextLess, Iso;
    var d := Decide(id, true, "alice", None, at);
    OneStatement(t, d);
    DeadlineGuards(id, t[id], true, "alice", None, at);
    hide Closed;
    assert Exec(d, t)[id].status == Approved;
    RefusedExactlyWhenPending(Exec(d, t), id, note, moment);
    ClosedIsDecided(Exec(d, t), id, note, moment, [], []);
  }

  lemma OneStatement(t: Table, d: Statement)
    ensures Replay(t, [d]) == Exec(d, t)
  {
    hide Exec;
    assert [d][..0] == [];
    assert Replay(t, []) == t;
  }

  lemma DecidedStays(t: Table, u: Table, id: string, others: seq<Statement>)
    requires id in t && Evolves(t, u) && u[id].status != Pending
    ensures Evolves(t, Replay(u, others)) && id in Replay(u, others) && Replay(u, others)[id].status != Pending
  {
    hide Replay;
    ReplayEvolves(u, others);
    EvolvesTransitive(t, u, Replay(u, others));
    assert RowEvolves(u[id], Replay(u, others)[id]);
  }

  /** A decision that missed is followed by an expiry that leaves the request decided. */
  lemma ReadAfterMiss(t: Table, t2: Table, d: Statement)
    requires d.Decide? && d.id in t && !Changes(d, d.id, t) && Evolves(t, t2)
    ensures var u := Exec(ExpireOne(d.id, d.now), t2); Evolves(t, u) && d.id in u && u[d.id].status != Pending
  {
    MissedDecisionStaysMissed(t, t2, d);
    ResolveMeaning(t2, d);
    hide Exec, Changes, AtomicResolve;
    ExecEvolves(ExpireOne(d.id, d.now), t2);
    EvolvesTransitive(t, t2, Exec(ExpireOne(d.id, d.now), t2));
  }

  class ApprovalGate {
    var table: Table
    const pollInterval: nat
    const turns: nat -> Turn

    constructor (table: Table, pollInterval: nat, turns: nat -> Turn)
      ensures this.table == table && this.pollInterval == pollInterval && this.turns == turns
    {
      this.table := table;
      this.pollInterval := pollInterval;
      this.turns := turns;
    }

    /** `store.get`, with other processes' statements between its two. */
    method Get(id: string, turn: Turn) returns (r: Outcome)
      modifies this`table
      ensures table == Read(old(table), id, turn)
      ensures r == Fetched(table, id)
    {
      table := Exec(ExpireOne(id, turn.moment), table);
      table := Replay(table, turn.between);
      r := Fetched(table, id);
    }

    /**
     `wait` and `await_decision`, giving up no earlier than the request expires: whatever others do, the loop ends with
     a decided request, after at most one store read more than the polls that fit before it expires.
     */
    method Wait(id: string, deadline: Option<UtcTime>) returns (r: Request, fetches: nat)
      requires id in table && pollInterval > 0
      requires deadline.Some? ==> table[id].expiresAt.Instant() <= deadline.value.Instant()
      requires FairClock(turns, if deadline.Some? then deadline.value else table[id].expiresAt, pollInterval)
      modifies this`table
      ensures r.status != Pending
      ensures id in table && table[id] == r && Evolves(old(table), table)
      ensures fetches > 0 && table == Read(Woken(old(table), id, turns, fetches - 1), id, turns(fetches - 1))
      ensures PendingUntil(old(table), id, turns, fetches - 1)
      ensures 1 <= fetches <= Polls(turns(0).moment, old(table)[id].expiresAt, pollInterval) + 1
    {
      hide DateTime.Instant, DateTime.Valid, DateTime.Day, Replay, Exec, Polls, Read, Woken, PendingUntil;
      hide Evolves, FairClock;
      ghost var t := table;
      ghost var start, expires := turns(0).moment, table[id].expiresAt;
      ghost var limit := if deadline.Some? then deadline.value else expires;
      fetches := 0;
      NothingReadYet(t, id, turns);
      while true
        invariant id in table && Evolves(t, table)
        invariant table == Woken(t, id, turns, fetches) && PendingUntil(t, id, turns, fetches)
        invariant fetches <= Polls(start, expires, pollInterval)
        decreases Polls(start, expires, pollInterval) + 1 - fetches
      {
        var turn := turns(fetches);
        OneRead(t, table, id, turn);
        var got := Get(id, turn);
        fetches := fetches + 1;
        r := got.row;
        if r.status != Pending {
          return;
        }
        PendingOneMore(t, id, turns, fetches - 1);
        PendingIsEarly(t, id, turns, limit, pollInterval, fetches - 1);
        PollsSuffice(start, expires, pollInterval, fetches - 1);
        WokenNext(t, id, turns, fetches - 1);
        WhileAsleep(t, table, turn.during, id);
        // Sleep: the rest of the world runs, the clock moves on.
        table := Replay(table, turn.during);
      }
    }

    /**
     `_fail_closed`: reject the request, or report what became of it. Others run between all three statements; the
     request that comes back is decided.
     */
    method FailClosed(id: string, note: string, moment: UtcTime,
                      beforeExpiry: seq<Statement>, beforeRead: seq<Statement>)
      returns (r: Request)
      requires id in table
      modifies this`table
      ensures Evolves(old(table), table)
      ensures id in table && r == table[id] && r.status != Pending
      ensures table == Closed(old(table), id, note, moment, beforeExpiry, beforeRead)
      ensures PendingIn(old(table), id) && moment.Instant() < old(table)[id].expiresAt.Instant() ==>
        RefusedBySystem(r, note, moment)
    {
      if PendingIn(table, id) && moment.Instant() < table[id].expiresAt.Instant() {
        PendingIsRefused(table, id, note, moment, beforeExpiry, beforeRead);
      }
      hide DateTime.Instant, DateTime.Valid, DateTime.Day, TextLess, Iso, Replay, Exec, Evolves;
      var d := Decide(id, false, SYSTEM, Some(note), moment);
      ClosedIsDecided(table, id, note, moment, beforeExpiry, beforeRead);
      DeadlineGuards(id, table[id], false, SYSTEM, Some(note), moment);
      var changed := Changes(d, id, table);
      if !changed {
        UnmatchedExec(d, table);
      }
      table := Exec(d, table);
      if !changed {
        table := Replay(table, beforeExpiry);
        table := Exec(ExpireOne(id, moment), table);
      }
      table := Replay(table, beforeRead);
      r := table[id];
    }

    /**
     `request`: insert, then notify. A collision on the id is refused and nothing is written. When the notifier
     raises, the request comes back decided, whatever others did meanwhile: it is never left pending.
     */
    method Ask(id: string, tool: string, args: Args, created: UtcTime, expires: UtcTime, notice: Notice, note: string,
               whileNotifying: seq<Statement>, moment: UtcTime,
               beforeExpiry: seq<Statement>, beforeRead: seq<Statement>)
      returns (r: Option<Request>)
      modifies this`table
      ensures Evolves(old(table), table)
      ensures r.None? <==> id in old(table)
      ensures r.None? ==> table == old(table)
      ensures r.Some? ==> id in table && RowEvolves(NewRequest(tool, args, created, expires), table[id])
      ensures r.Some? ==>
        && table[id].tool == tool && table[id].args == args && table[id].fingerprint == FingerprintArgs(args)
        && table[id].requestedAt == created && table[id].expiresAt == expires
        && r.value.tool == tool && r.value.args == args && r.value.fingerprint == FingerprintArgs(args)
        && r.value.requestedAt == created && r.value.expiresAt == expires
      ensures r.Some? && notice.Posted? ==>
        && r.value.status == Pending && r.value.notificationRef == notice.ref
        && r.value.decidedAt == None && r.value.decidedBy == None && r.value.note == None
      ensures r.Some? && notice.Raised? ==> r.value.status != Pending && r.value == table[id]
      ensures r.Some? ==>
        var asked := Replay(old(table)[id := NewRequest(tool, args, created, expires)], whileNotifying);
        table == match notice
          case Raised => Closed(asked, id, note, moment, beforeExpiry, beforeRead)
          case Posted(ref) => if ref.Some? then Exec(Attach(id, ref), asked) else asked
      ensures r.Some? && notice.Raised? ==>
        var asked := Replay(old(table)[id := NewRequest(tool, args, created, expires)], whileNotifying);
        PendingIn(asked, id) && moment.Instant() < expires.Instant() ==> RefusedBySystem(r.value, note, moment)
      ensures r.Some? && notice.Posted? ==>
        r.value == NewRequest(tool, args, created, expires).(notificationRef := notice.ref)
    {
      hide DateTime.Instant, DateTime.Valid, DateTime.Day, TextLess, Iso, Replay;
      if id in table {
        assert Evolves(table, table);
        return None;
      }
      ghost var t0 := table;
      table := Exec(Insert(id, tool, args, created, expires), table);
      ghost var t1 := table;
      assert t1[id] == NewRequest(tool, args, created, expires);
      hide Exec, Matches, Assign;
      ExecEvolves(Insert(id, tool, args, created, expires), t0);
      table := Replay(table, whileNotifying);
      ghost var t2 := table;
      ReplayEvolves(t1, whileNotifying);
      if notice.Raised? {
        var closed := FailClosed(id, note, moment, beforeExpiry, beforeRead);
        r := Some(closed);
      } else {
        if notice.ref.Some? {
          table := Exec(Attach(id, notice.ref), table);
          ExecEvolves(Attach(id, notice.ref), t2);
        }
        r := Some(NewRequest(tool, args, created, expires).(notificationRef := notice.ref));
      }
      assert Evolves(table, table);
      EvolvesTransitive(t1, t2, table);
      EvolvesTransitive(t0, t1, table);
      assert RowEvolves(t1[id], table[id]);
    }
  }
}

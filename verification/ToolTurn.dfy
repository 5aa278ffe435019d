/**
 The tools of one turn, event by event: calls that need no human begin and end as they please, a gated call waits until
 everything before it is over. What is proved is about every log of events that can come of it, cut off anywhere.
 */
module ToolTurn {
  import opened Wrappers
  import opened Transcripts
  import opened Recovery

  // -------------------------------------------------------------------- the machine

  datatype CallState = Idle | Running | Done(body: string)

  datatype Event = Began(i: nat) | Ended(i: nat, body: string)

  /** Where each call of the turn stands, and everything that has happened. */
  datatype Board = Board(states: seq<CallState>, log: seq<Event>)

  ghost predicate AreCalls(calls: seq<Block>) {
    forall i :: 0 <= i < |calls| ==> calls[i].ToolUse?
  }

  /** Call `i` may not begin before call `j` is over: a write waits for all reads, and for earlier writes. */
  predicate Awaits(calls: seq<Block>, gated: string -> bool, i: nat, j: nat)
    requires AreCalls(calls)
  {
    i < |calls| && j < |calls| && gated(calls[i].name) && (!gated(calls[j].name) || j < i)
  }

  predicate Allowed(calls: seq<Block>, gated: string -> bool, b: Board, e: Event)
    requires AreCalls(calls) && |b.states| == |calls|
  {
    && e.i < |calls|
    && match e
       case Began(i) =>
         b.states[i] == Idle && forall j: nat :: j < |calls| && Awaits(calls, gated, i, j) ==> b.states[j].Done?
       case Ended(i, _) => b.states[i] == Running
  }

  /** A read may begin at any time, a write once all reads and the earlier writes are over; a running call may end. */
  lemma AllowedExactly(calls: seq<Block>, gated: string -> bool, b: Board, i: nat, body: string)
    requires AreCalls(calls) && |b.states| == |calls| && i < |calls|
    ensures Allowed(calls, gated, b, Began(i)) <==>
      && b.states[i] == Idle
      && (gated(calls[i].name) ==>
            forall j: nat :: j < |calls| && (!gated(calls[j].name) || j < i) ==> b.states[j].Done?)
    ensures Allowed(calls, gated, b, Ended(i, body)) <==> b.states[i] == Running
  {
    if gated(calls[i].name) {
      forall j: nat | j < |calls| ensures Awaits(calls, gated, i, j) <==> !gated(calls[j].name) || j < i {
      }
    }
  }

  function Next(b: Board, e: Event): (c: Board)
    ensures |c.states| == |b.states|
  {
    if e.i >= |b.states| then b
    else Board(b.states[e.i := if e.Began? then Running else Done(e.body)], b.log + [e])
  }

  function Fresh(n: nat): Board {
    Board(seq(n, _ => Idle), [])
  }

  /** The board after these events. */
  function Play(n: nat, log: seq<Event>): (b: Board)
    ensures |b.states| == n
  {
    if log == [] then Fresh(n) else Next(Play(n, log[..|log| - 1]), log[|log| - 1])
  }

  /** Each event was allowed when it happened. */
  ghost predicate Legal(calls: seq<Block>, gated: string -> bool, log: seq<Event>)
    requires AreCalls(calls)
  {
    log == []
    || (Legal(calls, gated, log[..|log| - 1])
        && Allowed(calls, gated, Play(|calls|, log[..|log| - 1]), log[|log| - 1]))
  }

  /** A board some run of the machine leads to; a crash leaves one that no event follows. */
  ghost predicate Reached(calls: seq<Block>, gated: string -> bool, b: Board)
    requires AreCalls(calls)
  {
    Legal(calls, gated, b.log) && b == Play(|calls|, b.log)
  }

  predicate AllDone(b: Board) {
    forall i :: 0 <= i < |b.states| ==> b.states[i].Done?
  }

  lemma FreshIsReached(calls: seq<Block>, gated: string -> bool)
    requires AreCalls(calls)
    ensures Reached(calls, gated, Fresh(|calls|))
  {
  }

  lemma NextIsReached(calls: seq<Block>, gated: string -> bool, b: Board, e: Event)
    requires AreCalls(calls) && Reached(calls, gated, b) && Allowed(calls, gated, b, e)
    ensures Reached(calls, gated, Next(b, e))
  {
    hide Allowed;
    assert e.i < |calls| by {
      AllowedIsACall(calls, gated, b, e);
    }
    var log := b.log + [e];
    assert log[..|log| - 1] == b.log;
  }

  lemma AllowedIsACall(calls: seq<Block>, gated: string -> bool, b: Board, e: Event)
    requires AreCalls(calls) && |b.states| == |calls| && Allowed(calls, gated, b, e)
    ensures e.i < |calls|
  {
  }

  // ------------------------------------------------------------------ the invariant

  /** The events of one call. */
  function Story(log: seq<Event>, i: nat): seq<Event> {
    if log == [] then []
    else Story(log[..|log| - 1], i) + if log[|log| - 1].i == i then [log[|log| - 1]] else []
  }

  function StoryOf(s: CallState, i: nat): seq<Event> {
    match s
    case Idle => []
    case Running => [Began(i)]
    case Done(body) => [Began(i), Ended(i, body)]
  }

  /** The log has of each call exactly what its state says: nothing twice, no end without a beginning, its own body. */
  ghost predicate LogAgrees(b: Board) {
    forall i: nat :: i < |b.states| ==> Story(b.log, i) == StoryOf(b.states[i], i)
  }

  /** Whatever has begun found everything it awaits done. */
  ghost predicate Waited(calls: seq<Block>, gated: string -> bool, b: Board)
    requires AreCalls(calls) && |b.states| == |calls|
  {
    forall i: nat, j: nat :: Awaits(calls, gated, i, j) && b.states[i] != Idle && i != j ==> b.states[j].Done?
  }

  lemma NextAgrees(b: Board, e: Event)
    requires LogAgrees(b) && e.i < |b.states|
    requires if e.Began? then b.states[e.i] == Idle else b.states[e.i] == Running
    ensures LogAgrees(Next(b, e))
  {
    var c := Next(b, e);
    assert c.log[..|c.log| - 1] == b.log;
  }

  lemma {:induction false} PlayAgrees(calls: seq<Block>, gated: string -> bool, log: seq<Event>)
    requires AreCalls(calls) && Legal(calls, gated, log)
    ensures var b := Play(|calls|, log); b.log == log && LogAgrees(b) && Waited(calls, gated, b)
  {
    hide LogAgrees, Story;
    if log == [] {
      FreshAgrees(|calls|);
    } else {
      var front, e := log[..|log| - 1], log[|log| - 1];
      PlayAgrees(calls, gated, front);
      NextAgrees(Play(|calls|, front), e);
      assert front + [e] == log;
      NextWaited(calls, gated, Play(|calls|, front), e);
    }
  }

  lemma FreshAgrees(n: nat)
    ensures LogAgrees(Fresh(n))
  {
  }

  lemma NextWaited(calls: seq<Block>, gated: string -> bool, b: Board, e: Event)
    requires AreCalls(calls) && |b.states| == |calls| && Waited(calls, gated, b) && Allowed(calls, gated, b, e)
    ensures Waited(calls, gated, Next(b, e))
  {
    var c := Next(b, e);
    forall i: nat, j: nat | Awaits(calls, gated, i, j) && c.states[i] != Idle && i != j ensures c.states[j].Done? {
      assert b.states[i] != Idle ==> b.states[j].Done?;
    }
  }

  // -------------------------------------------------------------------- main results

  /**
   On every board that can come about, also one left by a crash: each call has run as far as its state says and no
   more. So each begins at most once and ends at most once, after it began; and when all is done, each has run once and
   the body it is said to have is the one its own end brought.
   */
  lemma EachCallRunsOnce(calls: seq<Block>, gated: string -> bool, b: Board, i: nat)
    requires AreCalls(calls) && Reached(calls, gated, b) && i < |calls|
    ensures Story(b.log, i) == StoryOf(b.states[i], i)
    ensures AllDone(b) ==> Story(b.log, i) == [Began(i), Ended(i, b.states[i].body)]
  {
    PlayAgrees(calls, gated, b.log);
  }

  /** A gated call in progress is alone: every read and every earlier write is over, no later write has begun. */
  lemma WritesComeAlone(calls: seq<Block>, gated: string -> bool, b: Board, i: nat, j: nat)
    requires AreCalls(calls) && Reached(calls, gated, b) && i < |calls| && j < |calls| && i != j
    requires gated(calls[i].name) && b.states[i] == Running
    ensures if !gated(calls[j].name) || j < i then b.states[j].Done? else b.states[j] == Idle
  {
    PlayAgrees(calls, gated, b.log);
    if gated(calls[j].name) && j > i {
      assert Awaits(calls, gated, j, i);
    } else {
      assert Awaits(calls, gated, i, j);
    }
  }

  ghost predicate EndedIn(log: seq<Event>, i: nat) {
    exists q: nat :: q < |log| && log[q].Ended? && log[q].i == i
  }

  /** A write that may begin finds every read and every earlier write ended, and no later write begun. */
  lemma WriteFindsItsTurn(calls: seq<Block>, gated: string -> bool, log: seq<Event>, i: nat, j: nat)
    requires AreCalls(calls) && Legal(calls, gated, log) && Allowed(calls, gated, Play(|calls|, log), Began(i))
    requires gated(calls[i].name) && j < |calls| && j != i
    ensures if !gated(calls[j].name) || j < i then EndedIn(log, j) else Story(log, j) == []
  {
    PlayAgrees(calls, gated, log);
    hide Play, Legal, Story;
    var b := Play(|calls|, log);
    assert Story(log, j) == StoryOf(b.states[j], j);
    assert gated(calls[j].name) && i < j ==> Awaits(calls, gated, j, i);
    if !gated(calls[j].name) || j < i {
      assert Awaits(calls, gated, i, j);
      assert Ended(j, b.states[j].body) == Story(log, j)[1];
      StoryEnds(log, j, b.states[j].body);
    }
  }

  /**
   The same, read off the log: where a gated call begins, every read has ended before, every write asked for earlier has
   ended before, and no write asked for later has begun.
   */
  lemma {:induction false} WritesBeginInOrder(calls: seq<Block>, gated: string -> bool, log: seq<Event>, q: nat, j: nat)
    requires AreCalls(calls) && Legal(calls, gated, log) && q < |log| && log[q].Began? && log[q].i < |calls|
    requires gated(calls[log[q].i].name) && j < |calls| && j != log[q].i
    ensures if !gated(calls[j].name) || j < log[q].i then EndedIn(log[..q], j) else Story(log[..q], j) == []
    decreases |log|
  {
    hide Play, Allowed, EndedIn, Story;
    var front := log[..|log| - 1];
    if q < |log| - 1 {
      WritesBeginInOrder(calls, gated, front, q, j);
      assert front[..q] == log[..q];
    } else {
      assert front == log[..q];
      WriteFindsItsTurn(calls, gated, front, log[q].i, j);
    }
  }

  lemma {:induction false} StoryEnds(log: seq<Event>, i: nat, body: string)
    requires Ended(i, body) in Story(log, i)
    ensures EndedIn(log, i)
  {
    var front, e := log[..|log| - 1], log[|log| - 1];
    if e == Ended(i, body) {
      assert log[|log| - 1].Ended? && log[|log| - 1].i == i;
    } else {
      StoryEnds(front, i, body);
      var q: nat :| q < |front| && front[q].Ended? && front[q].i == i;
      assert log[q] == front[q];
    }
  }

  /** The turn is never stuck: until all is done something can happen, whatever has happened. */
  lemma NeverStuck(calls: seq<Block>, gated: string -> bool, b: Board)
    requires AreCalls(calls) && |b.states| == |calls| && !AllDone(b)
    ensures exists e :: Allowed(calls, gated, b, e)
  {
    if i: nat :| i < |calls| && !b.states[i].Done? && !gated(calls[i].name) {
      var e := if b.states[i] == Running then Ended(i, "") else Began(i);
      assert Allowed(calls, gated, b, e);
    } else {
      var i := FirstNotDone(b);
      var e := if b.states[i] == Running then Ended(i, "") else Began(i);
      assert Allowed(calls, gated, b, e);
    }
  }

  lemma FirstNotDone(b: Board) returns (i: nat)
    requires !AllDone(b)
    ensures i < |b.states| && !b.states[i].Done? && forall j :: 0 <= j < i ==> b.states[j].Done?
  {
    i := 0;
    while i < |b.states| && b.states[i].Done?
      invariant i <= |b.states| && forall j :: 0 <= j < i ==> b.states[j].Done?
    {
      i := i + 1;
    }
  }

  /** What has happened to the calls so far, in events. */
  function Work(states: seq<CallState>): nat {
    if states == [] then 0
    else Work(states[..|states| - 1])
         + match states[|states| - 1] case Idle => 0 case Running => 1 case Done(_) => 2
  }

  lemma {:induction false} WorkUpdate(states: seq<CallState>, i: nat, s: CallState)
    requires i < |states|
    requires (states[i] == Idle && s == Running) || (states[i] == Running && s.Done?)
    ensures Work(states[i := s]) == Work(states) + 1
  {
    var front, last := states[..|states| - 1], |states| - 1;
    if i < last {
      WorkUpdate(front, i, s);
      assert states[i := s][..last] == front[i := s];
    } else {
      assert states[i := s][..last] == front;
    }
  }

  lemma {:induction false} WorkBound(states: seq<CallState>)
    ensures Work(states) <= 2 * |states|
    ensures Work(states) == 2 * |states| <==> forall i :: 0 <= i < |states| ==> states[i].Done?
  {
    if states != [] {
      WorkBound(states[..|states| - 1]);
    }
  }

  /** Every run is finite: no more than two events a call, and exactly that many when all is done. */
  lemma {:induction false} RunsAreShort(calls: seq<Block>, gated: string -> bool, log: seq<Event>)
    requires AreCalls(calls) && Legal(calls, gated, log)
    ensures |log| == Work(Play(|calls|, log).states) <= 2 * |calls|
    ensures |log| == 2 * |calls| <==> AllDone(Play(|calls|, log))
  {
    WorkBound(Play(|calls|, log).states);
    if log == [] {
      NothingDone(|calls|);
    } else {
      var front, e := log[..|log| - 1], log[|log| - 1];
      RunsAreShort(calls, gated, front);
      WorkUpdate(Play(|calls|, front).states, e.i, if e.Began? then Running else Done(e.body));
    }
  }

  lemma {:induction false} NothingDone(n: nat)
    ensures Work(Fresh(n).states) == 0
  {
    if n > 0 {
      NothingDone(n - 1);
      assert Fresh(n).states[..n - 1] == Fresh(n - 1).states;
    }
  }

  // ---------------------------------------------------------------------- the method

  /** The positions, from `from` on, of the calls that do (or do not) need a human. */
  function Positions(calls: seq<Block>, gated: string -> bool, want: bool, from: nat): (ps: seq<nat>)
    requires AreCalls(calls) && from <= |calls|
    ensures forall a :: 0 <= a < |ps| ==> from <= ps[a] < |calls|
    decreases |calls| - from
  {
    if from == |calls| then []
    else
      var rest := Positions(calls, gated, want, from + 1);
      if gated(calls[from].name) == want then [from] + rest else rest
  }

  ghost predicate Increasing(ps: seq<nat>) {
    forall a, b :: 0 <= a < b < |ps| ==> ps[a] < ps[b]
  }

  lemma InFront(n: nat, rest: seq<nat>)
    requires Increasing(rest) && forall a :: 0 <= a < |rest| ==> n < rest[a]
    ensures Increasing([n] + rest) && forall i: nat :: i in [n] + rest <==> i == n || i in rest
  {
  }

  /** Just the calls asked for, each once, in the order the model made them. */
  lemma {:induction false} PositionsMeaning(calls: seq<Block>, gated: string -> bool, want: bool, from: nat)
    requires AreCalls(calls) && from <= |calls|
    ensures Increasing(Positions(calls, gated, want, from))
    ensures forall i: nat :: i in Positions(calls, gated, want, from) <==>
      from <= i < |calls| && gated(calls[i].name) == want
    decreases |calls| - from
  {
    if from < |calls| {
      PositionsMeaning(calls, gated, want, from + 1);
      InFront(from, Positions(calls, gated, want, from + 1));
    }
  }

  /** Every call at these positions is over. */
  predicate DoneAt(b: Board, ps: seq<nat>) {
    forall a :: 0 <= a < |ps| ==> ps[a] < |b.states| && b.states[ps[a]].Done?
  }

  /** A world the tools run in: while some read is not over, something happens to a read. */
  ghost predicate Lively(calls: seq<Block>, gated: string -> bool, world: Board -> Event)
    requires AreCalls(calls)
  {
    forall b :: Reached(calls, gated, b) && !DoneAt(b, Positions(calls, gated, false, 0)) ==>
      Allowed(calls, gated, b, world(b)) && !gated(calls[world(b).i].name)
  }

  function Filled(results: seq<Option<Block>>): seq<Block> {
    if results == [] then []
    else if results[0].Some? then [results[0].value] + Filled(results[1..]) else Filled(results[1..])
  }

  lemma {:induction false} FilledAll(results: seq<Option<Block>>, blocks: seq<Block>)
    requires |results| == |blocks| && forall i :: 0 <= i < |results| ==> results[i] == Some(blocks[i])
    ensures Filled(results) == blocks
  {
    if results != [] {
      FilledAll(results[1..], blocks[1..]);
      assert blocks == [blocks[0]] + blocks[1..];
    }
  }

  /** What the calls of a finished board returned. */
  function Bodies(b: Board): (bodies: seq<string>)
    requires AllDone(b)
    ensures |bodies| == |b.states| && forall i :: 0 <= i < |bodies| ==> bodies[i] == b.states[i].body
  {
    seq(|b.states|, i requires 0 <= i < |b.states| => b.states[i].body)
  }

  /** Slot `i` holds the result of call `i` itself. */
  ghost predicate SlotHolds(slot: Option<Block>, call: Block, s: CallState)
    requires call.ToolUse?
  {
    s.Done? && slot == Some(ToolResult(call.id, s.body))
  }

  /**
   The reads, run by the world as it likes. In the end all are over, and no gated call has begun.
   */
  method RunReads(calls: seq<Block>, gated: string -> bool, world: Board -> Event) returns (b: Board)
    requires AreCalls(calls) && Lively(calls, gated, world)
    ensures Reached(calls, gated, b) && |b.states| == |calls|
    ensures forall i: nat :: i < |calls| ==> if gated(calls[i].name) then b.states[i] == Idle else b.states[i].Done?
  {
    ghost var free := Positions(calls, gated, false, 0);
    b := Fresh(|calls|);
    FreshIsReached(calls, gated);
    PositionsMeaning(calls, gated, false, 0);
    hide Positions, Reached, Allowed, Awaits;
    ReachedIsShort(calls, gated, b);
    while !DoneAt(b, Positions(calls, gated, false, 0))
      invariant Reached(calls, gated, b) && |b.states| == |calls|
      invariant forall i: nat :: i < |calls| && gated(calls[i].name) ==> b.states[i] == Idle
      invariant |b.log| <= 2 * |calls|
      decreases 2 * |calls| - |b.log|
    {
      var e := world(b);
      AllowedIsACall(calls, gated, b, e);
      NextIsReached(calls, gated, b, e);
      b := Next(b, e);
      ReachedIsShort(calls, gated, b);
    }
    forall i: nat | i < |calls| && !gated(calls[i].name) ensures b.states[i].Done? {
      assert i in free;
    }
  }

  lemma ReachedIsShort(calls: seq<Block>, gated: string -> bool, b: Board)
    requires AreCalls(calls) && Reached(calls, gated, b)
    ensures |b.states| == |calls| && |b.log| <= 2 * |calls|
  {
    RunsAreShort(calls, gated, b.log);
  }

  /** The slots of the gated calls, or of the others, hold their own results, and the rest are as they were. */
  ghost predicate AllHold(calls: seq<Block>, gated: string -> bool, which: bool, b: Board,
                          was: seq<Option<Block>>, now: seq<Option<Block>>)
    requires AreCalls(calls) && |b.states| == |was| == |now| == |calls|
  {
    forall i: nat :: i < |calls| ==>
      if gated(calls[i].name) == which then SlotHolds(now[i], calls[i], b.states[i]) else now[i] == was[i]
  }

  /** `results[index] = block`. */
  method Fill(slots: array<Option<Block>>, calls: seq<Block>, i: nat, body: string)
    requires AreCalls(calls) && i < |calls| == slots.Length
    modifies slots
    ensures slots[..] == old(slots[..])[i := Some(ToolResult(calls[i].id, body))]
  {
    slots[i] := Some(ToolResult(calls[i].id, body));
  }

  /**
   `gather` and the slots of the reads: whatever order they end in, each slot gets that read's own result, and no other
   slot changes.
   */
  method Gather(slots: array<Option<Block>>, calls: seq<Block>, gated: string -> bool, world: Board -> Event)
    returns (b: Board)
    requires AreCalls(calls) && slots.Length == |calls| && Lively(calls, gated, world)
    modifies slots
    ensures Reached(calls, gated, b) && |b.states| == |calls|
    ensures forall i: nat :: i < |calls| && gated(calls[i].name) ==> b.states[i] == Idle
    ensures AllHold(calls, gated, false, b, old(slots[..]), slots[..])
  {
    b := RunReads(calls, gated, world);
    ghost var was := slots[..];
    ghost var free := Positions(calls, gated, false, 0);
    PositionsMeaning(calls, gated, false, 0);
    assert DoneAt(b, free) by {
      forall a | 0 <= a < |free| ensures free[a] < |b.states| && b.states[free[a]].Done? {
        assert free[a] in free;
      }
    }
    hide Positions, Reached;
    FillReads(slots, Positions(calls, gated, false, 0), calls, b);
    AllGathered(calls, gated, b, was, slots[..], free);
  }

  method FillReads(slots: array<Option<Block>>, free: seq<nat>, calls: seq<Block>, b: Board)
    requires AreCalls(calls) && slots.Length == |calls| == |b.states| && DoneAt(b, free)
    modifies slots
    ensures Gathered(calls, b, old(slots[..]), slots[..], free)
  {
    ghost var was := slots[..];
    assert Gathered(calls, b, was, slots[..], []);
    hide Gathered;
    for n := 0 to |free|
      invariant Gathered(calls, b, was, slots[..], free[..n])
    {
      assert free[..n + 1] == free[..n] + [free[n]];
      OneMoreGathered(calls, b, was, slots[..], free[..n], free[n]);
      Fill(slots, calls, free[n], b.states[free[n]].body);
    }
    assert free[..|free|] == free;
  }

  /** The slots of these reads have their results, the others are as they were. */
  ghost predicate Gathered(calls: seq<Block>, b: Board, was: seq<Option<Block>>, now: seq<Option<Block>>,
                           filled: seq<nat>)
    requires AreCalls(calls) && |b.states| == |was| == |now| == |calls|
  {
    forall i: nat :: i < |calls| ==> if i in filled then SlotHolds(now[i], calls[i], b.states[i]) else now[i] == was[i]
  }

  lemma OneMoreGathered(calls: seq<Block>, b: Board, was: seq<Option<Block>>, now: seq<Option<Block>>,
                        filled: seq<nat>, r: nat)
    requires AreCalls(calls) && |b.states| == |was| == |now| == |calls| && Gathered(calls, b, was, now, filled)
    requires r < |calls| && b.states[r].Done?
    ensures Gathered(calls, b, was, now[r := Some(ToolResult(calls[r].id, b.states[r].body))], filled + [r])
  {
  }

  lemma AllGathered(calls: seq<Block>, gated: string -> bool, b: Board,
                    was: seq<Option<Block>>, now: seq<Option<Block>>, filled: seq<nat>)
    requires AreCalls(calls) && |b.states| == |was| == |now| == |calls| && Gathered(calls, b, was, now, filled)
    requires forall i: nat :: i < |calls| ==> (i in filled <==> !gated(calls[i].name))
    ensures AllHold(calls, gated, false, b, was, now)
  {
  }

  /** Of an increasing sequence, what is smaller than an element comes before it, and the element itself does not. */
  lemma EarlierWritesFirst(writes: seq<nat>, n: nat)
    requires Increasing(writes) && n < |writes|
    ensures forall j :: j in writes && j < writes[n] ==> j in writes[..n]
    ensures writes[n] !in writes[..n]
  {
    forall j | j in writes && j < writes[n] ensures j in writes[..n] {
      var a :| 0 <= a < |writes| && writes[a] == j;
      assert a < n;
      assert writes[..n][a] == j;
    }
  }

  /** Reads are as they were; the writes done so far are in their slots, and the others have not begun. */
  ghost predicate WrittenAt(calls: seq<Block>, gated: string -> bool, before: Board, b: Board,
                            was: seq<Option<Block>>, now: seq<Option<Block>>, written: seq<nat>, i: nat)
    requires AreCalls(calls) && |before.states| == |b.states| == |was| == |now| == |calls| && i < |calls|
  {
    if !gated(calls[i].name) then b.states[i] == before.states[i] && b.states[i].Done? && now[i] == was[i]
    else if i in written then SlotHolds(now[i], calls[i], b.states[i])
    else b.states[i] == Idle
  }

  ghost predicate Written(calls: seq<Block>, gated: string -> bool, before: Board, b: Board,
                          was: seq<Option<Block>>, now: seq<Option<Block>>, written: seq<nat>)
    requires AreCalls(calls) && |before.states| == |b.states| == |was| == |now| == |calls|
  {
    forall i: nat :: i < |calls| ==> WrittenAt(calls, gated, before, b, was, now, written, i)
  }

  /** With every read and every earlier write over, the next write may begin. */
  lemma NextWriteMayBegin(calls: seq<Block>, gated: string -> bool, before: Board, b: Board,
                          was: seq<Option<Block>>, now: seq<Option<Block>>, written: seq<nat>, w: nat)
    requires AreCalls(calls) && |before.states| == |b.states| == |was| == |now| == |calls|
    requires Written(calls, gated, before, b, was, now, written)
    requires w < |calls| && gated(calls[w].name) && w !in written
    requires forall j: nat :: j < w && gated(calls[j].name) ==> j in written
    ensures Allowed(calls, gated, b, Began(w))
  {
    assert WrittenAt(calls, gated, before, b, was, now, written, w);
    forall j: nat | j < |calls| && Awaits(calls, gated, w, j) ensures b.states[j].Done? {
      assert WrittenAt(calls, gated, before, b, was, now, written, j);
    }
  }

  lemma OneMoreWritten(calls: seq<Block>, gated: string -> bool, before: Board, b: Board,
                       was: seq<Option<Block>>, now: seq<Option<Block>>, written: seq<nat>, w: nat, c: Board)
    requires AreCalls(calls) && |before.states| == |b.states| == |c.states| == |was| == |now| == |calls|
    requires Written(calls, gated, before, b, was, now, written)
    requires w < |calls| && gated(calls[w].name) && c.states[w].Done? && c.states == b.states[w := c.states[w]]
    ensures Written(calls, gated, before, c, was,
                    now[w := Some(ToolResult(calls[w].id, c.states[w].body))], written + [w])
  {
    var filled := now[w := Some(ToolResult(calls[w].id, c.states[w].body))];
    forall i: nat | i < |calls| ensures WrittenAt(calls, gated, before, c, was, filled, written + [w], i) {
      assert WrittenAt(calls, gated, before, b, was, now, written, i);
    }
  }

  /** One call that may begin, to its end. */
  method Call(calls: seq<Block>, gated: string -> bool, before: Board, w: nat, answer: (Board, nat) -> string)
    returns (b: Board)
    requires AreCalls(calls) && Reached(calls, gated, before) && |before.states| == |calls|
    requires w < |calls| && Allowed(calls, gated, before, Began(w))
    ensures Reached(calls, gated, b) && |b.states| == |calls|
    ensures b.states[w].Done? && b.states == before.states[w := b.states[w]]
    ensures exists body :: b.log == before.log + [Began(w), Ended(w, body)] && b.states[w] == Done(body)
  {
    hide Reached, Awaits;
    NextIsReached(calls, gated, before, Began(w));
    b := Next(before, Began(w));
    var body := answer(b, w);
    NextIsReached(calls, gated, b, Ended(w, body));
    b := Next(b, Ended(w, body));
    assert b.log == before.log + [Began(w), Ended(w, body)];
  }

  /** The gated calls, in the order the model asked, each to its end before the next. */
  method OneAfterAnother(slots: array<Option<Block>>, calls: seq<Block>, gated: string -> bool,
                         before: Board, answer: (Board, nat) -> string)
    returns (b: Board)
    requires AreCalls(calls) && slots.Length == |calls| == |before.states| && Reached(calls, gated, before)
    requires forall i: nat :: i < |calls| ==>
      if gated(calls[i].name) then before.states[i] == Idle else before.states[i].Done?
    modifies slots
    ensures Reached(calls, gated, b) && |b.states| == |calls| && AllDone(b)
    ensures AllHold(calls, gated, true, b, old(slots[..]), slots[..])
    ensures forall i: nat :: i < |calls| && !gated(calls[i].name) ==> b.states[i] == before.states[i]
  {
    var writes := Positions(calls, gated, true, 0);
    PositionsMeaning(calls, gated, true, 0);
    b := before;
    ghost var was := slots[..];
    assert Written(calls, gated, before, b, was, slots[..], []);
    hide Positions, Reached, Written, Allowed, AllHold, SlotHolds;
    for n := 0 to |writes|
      invariant Reached(calls, gated, b) && |b.states| == |calls|
      invariant Written(calls, gated, before, b, was, slots[..], writes[..n])
    {
      var w := writes[n];
      assert w in writes && writes[..n + 1] == writes[..n] + [w];
      EarlierWritesFirst(writes, n);
      NextWriteMayBegin(calls, gated, before, b, was, slots[..], writes[..n], w);
      ghost var last := b;
      b := Call(calls, gated, b, w, answer);
      OneMoreWritten(calls, gated, before, last, was, slots[..], writes[..n], w, b);
      Fill(slots, calls, w, b.states[w].body);
    }
    assert writes[..|writes|] == writes;
    AllWritten(calls, gated, before, b, was, slots[..], writes);
  }

  lemma AllWritten(calls: seq<Block>, gated: string -> bool, before: Board, b: Board,
                   was: seq<Option<Block>>, now: seq<Option<Block>>, written: seq<nat>)
    requires AreCalls(calls) && |before.states| == |b.states| == |was| == |now| == |calls|
    requires Written(calls, gated, before, b, was, now, written)
    requires forall i: nat :: i < |calls| && gated(calls[i].name) ==> i in written
    ensures AllDone(b) && AllHold(calls, gated, true, b, was, now)
    ensures forall i: nat :: i < |calls| && !gated(calls[i].name) ==> b.states[i] == before.states[i]
  {
    forall i: nat | i < |calls|
      ensures b.states[i].Done?
      ensures if gated(calls[i].name) then SlotHolds(now[i], calls[i], b.states[i])
              else now[i] == was[i] && b.states[i] == before.states[i]
    {
      assert WrittenAt(calls, gated, before, b, was, now, written, i);
    }
  }

  /**
   `_run_tools`: whatever the world makes of the calls, the turn ends on a board that the machine can reach with every
   call over, and the results are what the calls themselves returned, one for each, in the order the model asked.
   */
  method RunTools(content: seq<Block>, gated: string -> bool, world: Board -> Event, answer: (Board, nat) -> string)
    returns (results: seq<Block>, b: Board)
    requires Lively(Calls(content), gated, world)
    ensures Reached(Calls(content), gated, b) && |b.states| == |Calls(content)| && AllDone(b)
    ensures results == ResultBlocks(Calls(content), Bodies(b))
    ensures Answers(Message(User, Blocks(results)), Calls(content))
  {
    hide Lively, Reached, Filled;
    var calls := Calls(content);
    var slots := new Option<Block>[|calls|](_ => None);
    b := Gather(slots, calls, gated, world);
    ghost var middle, gathered := b, slots[..];
    b := OneAfterAnother(slots, calls, gated, b, answer);
    forall i: nat | i < |calls| ensures slots[i] == Some(ToolResult(calls[i].id, b.states[i].body)) {
      assert SlotHolds(slots[i], calls[i], b.states[i]) by {
        assert !gated(calls[i].name) ==> SlotHolds(gathered[i], calls[i], middle.states[i]);
      }
    }
    FilledAll(slots[..], ResultBlocks(calls, Bodies(b)));
    results := Filled(slots[..]);
  }
}

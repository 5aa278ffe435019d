/**
 The loop itself: one turn, the turns of a run, and picking a run up again; and that a turn of the loop, wherever a
 crash cuts it off, is what a thread of `Recovery` does in its steps.
 */
module AgentLoop {
  import opened Wrappers
  import opened Transcripts
  import opened Recovery
  import opened ToolTurn

  /** What comes back in one turn: the model's reply, and the world its calls run in. */
  datatype Reply = Reply(content: seq<Block>, stop: Stop, world: Board -> Event, answer: (Board, nat) -> string)

  predicate GoesOnAfter(stop: Stop) {
    stop == StopToolUse || stop == StopPause
  }

  /** The first `n` replies all asked the run to go on. */
  ghost predicate GoesOn(replies: nat -> Reply, n: int) {
    forall k: nat :: k < n ==> GoesOnAfter(replies(k).stop)
  }

  lemma GoesOnOneMore(replies: nat -> Reply, n: nat)
    requires GoesOn(replies, n)
    ensures GoesOn(replies, n + 1) <==> GoesOnAfter(replies(n).stop)
  {
    assert GoesOn(replies, n + 1) ==> GoesOnAfter(replies(n).stop);
  }

  lemma GoesOnFewer(replies: nat -> Reply, n: nat)
    requires GoesOn(replies, n)
    ensures GoesOn(replies, n - 1)
  {
  }

  /** A board on which the calls of this reply are all over. */
  ghost predicate Finished(content: seq<Block>, gated: string -> bool, b: Board) {
    Reached(Calls(content), gated, b) && |b.states| == |Calls(content)| && AllDone(b)
  }

  /** What one turn adds to the conversation. */
  ghost function Exchange(content: seq<Block>, stop: Stop, gated: string -> bool, b: Board): seq<Message> {
    [Message(Assistant, Blocks(content))]
    + if stop == StopToolUse && Finished(content, gated, b)
      then [Message(User, Blocks(ResultBlocks(Calls(content), Bodies(b))))] else []
  }

  /** The conversation after the first turns, which ended on these boards. */
  ghost function Conversation(start: seq<Message>, replies: nat -> Reply, gated: string -> bool, boards: seq<Board>):
    seq<Message>
  {
    if boards == [] then start
    else
      var n := |boards| - 1;
      Conversation(start, replies, gated, boards[..n]) + Exchange(replies(n).content, replies(n).stop, gated, boards[n])
  }

  ghost predicate WellAsked(asked: seq<seq<Message>>, start: seq<Message>) {
    forall n :: 0 <= n < |asked| ==> Sendable(asked[n]) && start <= asked[n]
  }

  lemma WellAskedOneMore(asked: seq<seq<Message>>, start: seq<Message>, next: seq<Message>)
    requires WellAsked(asked, start) && Sendable(next) && start <= next
    ensures WellAsked(asked + [next], start)
  {
  }

  /** Request `n` is the conversation after `n` turns. */
  ghost predicate AskedInTurn(asked: seq<seq<Message>>, start: seq<Message>, replies: nat -> Reply,
                              gated: string -> bool, boards: seq<Board>)
  {
    |asked| == |boards| && forall n :: 0 <= n < |asked| ==> asked[n] == Conversation(start, replies, gated, boards[..n])
  }

  lemma AskedOneMore(asked: seq<seq<Message>>, start: seq<Message>, replies: nat -> Reply,
                     gated: string -> bool, boards: seq<Board>, b: Board)
    requires AskedInTurn(asked, start, replies, gated, boards)
    ensures AskedInTurn(asked + [Conversation(start, replies, gated, boards)], start, replies, gated, boards + [b])
    ensures var n := |boards|;
      Conversation(start, replies, gated, boards + [b])
      == Conversation(start, replies, gated, boards) + Exchange(replies(n).content, replies(n).stop, gated, b)
  {
    hide Conversation, Exchange;
    var next, more := asked + [Conversation(start, replies, gated, boards)], boards + [b];
    assert more[..|boards|] == boards;
    forall n | 0 <= n < |next| ensures next[n] == Conversation(start, replies, gated, more[..n]) {
      if n < |asked| {
        assert more[..n] == boards[..n];
      }
    }
    ConversationOneMore(start, replies, gated, boards, b);
  }

  lemma ConversationOneMore(start: seq<Message>, replies: nat -> Reply,
                            gated: string -> bool, boards: seq<Board>, b: Board)
    ensures var n := |boards|;
      Conversation(start, replies, gated, boards + [b])
      == Conversation(start, replies, gated, boards) + Exchange(replies(n).content, replies(n).stop, gated, b)
  {
    hide Exchange;
    assert (boards + [b])[..|boards|] == boards;
  }

  lemma NothingAsked(replies: nat -> Reply, start: seq<Message>, gated: string -> bool)
    ensures GoesOn(replies, 0) && WellAsked([], start) && AskedInTurn([], start, replies, gated, [])
    ensures Conversation(start, replies, gated, []) == start
  {
  }

  // ---------------------------------------------------- a turn as steps of a thread

  /** The steps of a thread for what has happened to the calls. */
  function Begins(log: seq<Event>): seq<Step> {
    if log == [] then []
    else Begins(log[..|log| - 1]) + if log[|log| - 1].Began? then [BeginCall(log[|log| - 1].i)] else []
  }

  /** The calls begun, in the order they began. */
  function BegunIn(log: seq<Event>, calls: seq<Block>, at: nat, run: nat): seq<Begun> {
    if log == [] then []
    else
      var e := log[|log| - 1];
      BegunIn(log[..|log| - 1], calls, at, run) + if e.Began? && e.i < |calls| then [Begun(calls[e.i], at, run)] else []
  }

  /** The calls that have begun. */
  function Unidle(b: Board): (s: set<nat>)
    ensures forall i: nat :: i in s <==> i < |b.states| && b.states[i] != Idle
  {
    set i: nat | i < |b.states| && b.states[i] != Idle
  }

  lemma NextUnidle(calls: seq<Block>, gated: string -> bool, b: Board, e: Event)
    requires AreCalls(calls) && |b.states| == |calls| && Allowed(calls, gated, b, e)
    ensures Unidle(ToolTurn.Next(b, e)) == if e.Began? then Unidle(b) + {e.i} else Unidle(b)
    ensures e.Began? ==> e.i < |calls| && e.i !in Unidle(b)
  {
    hide Awaits;
    var s, u := Unidle(b), Unidle(ToolTurn.Next(b, e));
    forall i: nat ensures i in u <==> i in s || (e.Began? && i == e.i) {
      assert i < |b.states| && i != e.i ==> ToolTurn.Next(b, e).states[i] == b.states[i];
    }
  }

  /** The thread with these calls begun. */
  function UnderWay(t: Thread, l: Live, calls: seq<Block>, log: seq<Event>): Thread
    requires l.messages != []
  {
    t.(live := Some(l.(phase := Calling(Unidle(Play(|calls|, log))))),
       begun := t.begun + BegunIn(log, calls, |l.messages| - 1, t.liveRun))
  }

  lemma OneMoreBegun(calls: seq<Block>, gated: string -> bool, front: seq<Event>, e: Event, at: nat, run: nat)
    requires AreCalls(calls) && Allowed(calls, gated, Play(|calls|, front), e)
    ensures Unidle(Play(|calls|, front + [e])) ==
      if e.Began? then Unidle(Play(|calls|, front)) + {e.i} else Unidle(Play(|calls|, front))
    ensures BegunIn(front + [e], calls, at, run) ==
      if e.Began? then BegunIn(front, calls, at, run) + [Begun(calls[e.i], at, run)] else BegunIn(front, calls, at, run)
    ensures e.Began? ==> e.i < |calls| && e.i !in Unidle(Play(|calls|, front))
  {
    var log := front + [e];
    assert log[..|log| - 1] == front && log[|log| - 1] == e;
    NextUnidle(calls, gated, Play(|calls|, front), e);
    hide Unidle, Allowed;
  }

  lemma OneMoreUnderWay(max: nat, t: Thread, l: Live, calls: seq<Block>, gated: string -> bool,
                        front: seq<Event>, e: Event)
    requires l.messages != [] && calls == LastCalls(l.messages) && AreCalls(calls)
    requires Allowed(calls, gated, Play(|calls|, front), e)
    ensures UnderWay(t, l, calls, front + [e]) ==
      var u := UnderWay(t, l, calls, front); if e.Began? then Recovery.Next(max, u, BeginCall(e.i)) else u
  {
    hide Recovery.Enabled, Recovery.Next, LastCalls, Unidle, Play, Allowed, BegunIn;
    OneMoreBegun(calls, gated, front, e, |l.messages| - 1, t.liveRun);
    if e.Began? {
      OneBegins(max, UnderWay(t, l, calls, front), l, e.i, Unidle(Play(|calls|, front)));
      Reassociated(t.begun, BegunIn(front, calls, |l.messages| - 1, t.liveRun),
                   [Begun(calls[e.i], |l.messages| - 1, t.liveRun)]);
    }
  }

  lemma Reassociated(a: seq<Begun>, b: seq<Begun>, c: seq<Begun>)
    ensures a + (b + c) == (a + b) + c
  {
  }

  /**
   Wherever the calls of a turn have got to, the thread's steps have got there too: the same calls have begun, in the
   order they began, and nothing else has changed. A crash at this point is a crash of the thread.
   */
  lemma {:induction false} CallsAreSteps(max: nat, t: Thread, l: Live, calls: seq<Block>, gated: string -> bool,
                                         log: seq<Event>)
    requires t.live == Some(l) && l.phase == Calling({}) && l.messages != [] && calls == LastCalls(l.messages)
    requires AreCalls(calls) && Legal(calls, gated, log)
    ensures Recovery.After(max, t, Begins(log)) == UnderWay(t, l, calls, log)
  {
    hide Recovery.Enabled, Recovery.Next, LastCalls, UnderWay, Allowed;
    if log == [] {
      NothingUnderWay(t, l, calls);
    } else {
      var front, e := log[..|log| - 1], log[|log| - 1];
      assert front + [e] == log;
      CallsAreSteps(max, t, l, calls, gated, front);
      OneMoreUnderWay(max, t, l, calls, gated, front, e);
      AfterOneMore(max, t, Begins(front), BeginCall(e.i));
      assert Begins(log) == if e.Began? then Begins(front) + [BeginCall(e.i)] else Begins(front);
    }
  }

  lemma NothingUnderWay(t: Thread, l: Live, calls: seq<Block>)
    requires l.messages != [] && t.live == Some(l) && l.phase == Calling({})
    ensures UnderWay(t, l, calls, []) == t
  {
    NothingBegun(|calls|);
  }

  lemma NothingBegun(n: nat)
    ensures Unidle(Fresh(n)) == {}
  {
  }

  lemma OneBegins(max: nat, t: Thread, l: Live, i: nat, begun: set<nat>)
    requires t.live == Some(l.(phase := Calling(begun))) && l.messages != []
    requires i < |LastCalls(l.messages)| && i !in begun
    ensures Recovery.Next(max, t, BeginCall(i)) == t.(
      live := Some(l.(phase := Calling(begun + {i}))),
      begun := t.begun + [Begun(LastCalls(l.messages)[i], |l.messages| - 1, t.liveRun)])
  {
    hide LastCalls, Sendable;
  }

  /** The steps of a thread that make up one turn. */
  function TurnSteps(content: seq<Block>, stop: Stop, b: Board): seq<Step> {
    [Send, Step.Reply(content, stop)]
    + if stop == StopToolUse && AllDone(b) then Begins(b.log) + [Answer(Bodies(b))] else []
  }

  lemma AllHaveBegun(content: seq<Block>, gated: string -> bool, b: Board, i: nat)
    requires Finished(content, gated, b) && i < |b.states|
    ensures i in Unidle(b)
  {
    assert b.states[i].Done?;
  }

  /** When all calls are over, their answer can follow. */
  lemma AnswerFollows(max: nat, t: Thread, l: Live, content: seq<Block>, gated: string -> bool, b: Board)
    requires Finished(content, gated, b) && t.live == Some(l.(phase := Calling(Unidle(b))))
    requires l.messages != [] && LastCalls(l.messages) == Calls(content)
    ensures Recovery.Next(max, t, Answer(Bodies(b))) == t.(live := Some(l.(
      messages := l.messages + [Message(User, Blocks(ResultBlocks(Calls(content), Bodies(b))))], phase := Asking)))
  {
    hide LastCalls, Calls, ResultBlocks, Unidle, Sendable, Reached;
    forall i: nat | i < |Bodies(b)| ensures i in Unidle(b) {
      AllHaveBegun(content, gated, b, i);
    }
  }

  lemma ReplyFollows(max: nat, t: Thread, l: Live, content: seq<Block>, stop: Stop)
    requires t.live == Some(l) && l.phase == Asking && l.turns < max && (stop == StopPause ==> Calls(content) == [])
    ensures var ms := l.messages + [Message(Assistant, Blocks(content))];
      Recovery.Next(max, Recovery.Next(max, t, Send), Step.Reply(content, stop)) == t.(
        requests := t.requests + [Request(l.messages, t.liveRun, t.begun)],
        saved := Some(Checkpoint(ms, RunRunning)), savedRun := t.liveRun,
        live := Some(Live(ms, PhaseAfter(stop), l.turns + 1)))
  {
    hide Calls, Sendable;
  }

  /**
   A turn of the loop is a send, a reply, its calls in the order they began, and their answer: the same request, the
   same checkpoint, the same conversation, the same calls begun.
   */
  lemma TurnIsSteps(max: nat, t: Thread, l: Live, content: seq<Block>, stop: Stop, gated: string -> bool, b: Board)
    requires t.live == Some(l) && l.phase == Asking && l.turns < max
    requires (stop == StopPause ==> Calls(content) == []) && (stop == StopToolUse ==> Finished(content, gated, b))
    ensures Recovery.After(max, t, TurnSteps(content, stop, b)) == t.(
      requests := t.requests + [Request(l.messages, t.liveRun, t.begun)],
      saved := Some(Checkpoint(l.messages + [Message(Assistant, Blocks(content))], RunRunning)), savedRun := t.liveRun,
      live := Some(Live(l.messages + Exchange(content, stop, gated, b),
                        if stop == StopToolUse || stop == StopPause then Asking
                        else Ending(if stop == StopEnd then RunCompleted else RunHalted), l.turns + 1)),
      begun := t.begun + if stop == StopToolUse then BegunIn(b.log, Calls(content), |l.messages|, t.liveRun) else [])
  {
    hide Calls, ResultBlocks, Recovery.Next, Recovery.Enabled, Recovery.After, Begins, BegunIn, Bodies, Unidle;
    var send, reply := Send, Step.Reply(content, stop);
    var u := Recovery.Next(max, Recovery.Next(max, t, send), reply);
    var ms := l.messages + [Message(Assistant, Blocks(content))];
    ReplyFollows(max, t, l, content, stop);
    TwoSteps(max, t, send, reply);
    if stop == StopToolUse {
      var l2 := Live(ms, Calling({}), l.turns + 1);
      assert LastCalls(l2.messages) == Calls(content);
      CallsAreSteps(max, u, l2, Calls(content), gated, b.log);
      AfterConcat(max, t, [send, reply], Begins(b.log) + [Answer(Bodies(b))]);
      AfterOneMore(max, u, Begins(b.log), Answer(Bodies(b)));
      AnswerFollows(max, Recovery.After(max, u, Begins(b.log)), l2, content, gated, b);
      assert ms + [Message(User, Blocks(ResultBlocks(Calls(content), Bodies(b))))]
          == l.messages + Exchange(content, stop, gated, b);
    } else {
      assert TurnSteps(content, stop, b) == [send, reply];
      assert Exchange(content, stop, gated, b) == [Message(Assistant, Blocks(content))];
    }
  }

  class Loop {
    var messages: seq<Message>
    var saved: Option<Checkpoint>
    var turns: nat
    var halted: bool
    const maxTurns: nat
    const gated: string -> bool
    ghost var requests: seq<seq<Message>>
    ghost var boards: seq<Board>

    constructor (maxTurns: nat, gated: string -> bool, saved: Option<Checkpoint>)
      ensures this.maxTurns == maxTurns && this.gated == gated && this.saved == saved
      ensures messages == [] && turns == 0 && !halted && requests == [] && boards == []
    {
      this.maxTurns, this.gated, this.saved := maxTurns, gated, saved;
      messages, turns, halted, requests, boards := [], 0, false, [], [];
    }

    /** A reply the API can give, in a world in which tools get somewhere. */
    ghost predicate Possible(r: Reply) {
      Lively(Calls(r.content), gated, r.world) && (r.stop == StopPause ==> Calls(r.content) == [])
    }

    /** `run`, up to its first turn: the history it is given, and the opening. */
    method Begin(history: seq<Message>, opening: string)
      requires history == [] || Sendable(history)
      modifies this`messages
      ensures messages == history + [Message(User, Prose(opening))] && Sendable(messages)
    {
      messages := history + [Message(User, Prose(opening))];
      if history == [] {
        assert messages == [Message(User, Prose(opening))];
      } else {
        AppendProse(history, opening);
      }
    }

    /** One reason-act-observe cycle. */
    method Turn(r: Reply) returns (finished: bool)
      requires Possible(r) && Sendable(messages)
      modifies this
      ensures requests == old(requests) + [old(messages)] && |boards| == |old(boards)| + 1 && old(boards) <= boards
      ensures saved == Some(Checkpoint(old(messages) + [Message(Assistant, Blocks(r.content))], RunRunning))
      ensures messages == old(messages) + Exchange(r.content, r.stop, gated, boards[|boards| - 1])
      ensures r.stop != StopToolUse ==> messages == old(messages) + [Message(Assistant, Blocks(r.content))]
      ensures r.stop == StopToolUse ==>
        && |messages| == |old(messages)| + 2 && old(messages) <= messages
        && messages[|messages| - 2] == Message(Assistant, Blocks(r.content))
        && Answers(messages[|messages| - 1], Calls(r.content))
        && forall i :: 0 <= i < |Calls(r.content)| ==>
             messages[|messages| - 1].content.blocks[i]
             == ToolResult(Calls(r.content)[i].id, boards[|boards| - 1].states[i].body)
      ensures r.stop == StopToolUse ==> Finished(r.content, gated, boards[|boards| - 1])
      ensures finished <==> r.stop != StopToolUse && r.stop != StopPause
      ensures halted == (old(halted) || r.stop == StopRefusal || r.stop == StopMaxTokens)
      ensures !finished ==> Sendable(messages)
      ensures turns == old(turns)
    {
      hide Lively, Reached;
      requests := requests + [messages];
      boards := boards + [Fresh(0)];
      ghost var sent := messages;
      var reply := Message(Assistant, Blocks(r.content));
      messages := messages + [reply];
      saved := Some(Checkpoint(messages, RunRunning));
      if r.stop == StopRefusal || r.stop == StopMaxTokens {
        halted := true;
        return true;
      }
      if r.stop == StopPause {
        AppendTalk(sent, reply);
        return false;
      }
      if r.stop == StopToolUse {
        var results, b := RunTools(r.content, gated, r.world, r.answer);
        boards := boards[|boards| - 1 := b];
        messages := messages + [Message(User, Blocks(results))];
        AppendExchange(sent, reply, Message(User, Blocks(results)));
        return false;
      }
      return true;
    }

    /**
     A whole run: whatever the model replies and however the tools go, it ends within the turn limit, every request is
     well formed, the conversation is the opening and the exchanges in turn, and the last checkpoint is the whole of it
     with the run's outcome.
     */
    method Turns(replies: nat -> Reply)
      requires Sendable(messages) && !halted && requests == [] && boards == [] && turns == 0
      requires forall n: nat :: Possible(replies(n))
      modifies this
      ensures turns == |requests| <= maxTurns
      ensures WellAsked(requests, old(messages)) && old(messages) <= messages
      ensures messages == Conversation(old(messages), replies, gated, boards)
      ensures AskedInTurn(requests, old(messages), replies, gated, boards)
      ensures saved == Some(Checkpoint(messages, if halted then RunHalted else RunCompleted))
      ensures GoesOn(replies, |requests| - 1)
      ensures halted <==> GoesOn(replies, |requests|) || replies(|requests| - 1).stop != StopEnd
      ensures GoesOn(replies, |requests|) ==> |requests| == maxTurns
    {
      hide Sendable, Lively, Calls, ResultBlocks, GoesOn, WellAsked, AskedInTurn, Exchange, Conversation, Finished;
      NothingAsked(replies, messages, gated);
      ghost var start := messages;
      var finished := false;
      while turns < maxTurns && !finished
        invariant turns == |requests| == |boards| <= maxTurns
        invariant GoesOn(replies, if finished then |requests| - 1 else |requests|)
        invariant finished ==> |requests| > 0 && !GoesOn(replies, |requests|)
        invariant halted <==> finished && replies(|requests| - 1).stop != StopEnd
        invariant !finished ==> Sendable(messages)
        invariant start <= messages && WellAsked(requests, start)
        invariant messages == Conversation(start, replies, gated, boards)
        invariant AskedInTurn(requests, start, replies, gated, boards)
        decreases maxTurns - turns
      {
        ghost var asked, before := requests, boards;
        WellAskedOneMore(requests, start, messages);
        GoesOnOneMore(replies, turns);
        finished := Turn(replies(turns));
        assert boards == before + [boards[turns]];
        AskedOneMore(asked, start, replies, gated, before, boards[turns]);
        turns := turns + 1;
      }
      if !finished {
        halted := true;
        GoesOnFewer(replies, |requests|);
      }
      saved := Some(Checkpoint(messages, if halted then RunHalted else RunCompleted));
    }

    /** `resume`: go on from the checkpoint, or refuse when there is none or nothing in it can be resumed. */
    method ResumeFrom() returns (resumed: bool)
      modifies this`messages
      ensures resumed <==> saved.Some? && Resumed(saved.value.messages) != []
      ensures resumed ==> messages == Resumed(saved.value.messages)
      ensures resumed && WellSaved(saved.value.messages) ==> Sendable(messages)
      ensures !resumed ==> messages == old(messages)
    {
      if saved.None? {
        return false;
      }
      var trimmed, note := PrepareResume(saved.value.messages);
      if trimmed == [] {
        return false;
      }
      if note.Some? || trimmed[|trimmed| - 1].role == Assistant {
        trimmed := trimmed + [Message(User, Prose((if note.Some? then note.value + "\n\n" else "") + CONTINUE))];
      }
      messages := trimmed;
      hide Note, CONTINUE;
      if WellSaved(saved.value.messages) {
        ResumedIsSendable(saved.value.messages);
      }
      return true;
    }
  }
}

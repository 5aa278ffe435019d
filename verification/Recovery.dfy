/**
 One thread of the agent over its whole life: runs, checkpoints, crashes at any point, and resumes. What is proved is
 about the requests the model is sent, and what they tell it about the tool calls that were ever begun.
 */
module Recovery {
  import opened Wrappers
  import opened Transcripts

  datatype Stop = StopToolUse | StopPause | StopEnd | StopRefusal | StopMaxTokens

  datatype RunStatus = RunRunning | RunCompleted | RunHalted

  datatype Checkpoint = Checkpoint(messages: seq<Message>, status: RunStatus)

  /**
   `Asking`: about to send; `Awaiting`: the request is out; `Calling`: some calls of the last message have begun;
   `Ending`: the run is over, its outcome not yet checkpointed.
   */
  datatype Phase = Asking | Awaiting | Calling(begun: set<nat>) | Ending(outcome: RunStatus)

  datatype Live = Live(messages: seq<Message>, phase: Phase, turns: nat)

  /** A call that was begun, where in the conversation it was made, and in which of the thread's runs. */
  datatype Begun = Begun(call: Block, at: nat, run: nat)

  /** A request as it was sent, and in which run, with the calls begun by then. */
  datatype Request = Request(messages: seq<Message>, run: nat, begun: seq<Begun>)

  /**
   `saved` survives a crash, `live` does not. The rest is history: how often the thread was run afresh, which of these
   runs the checkpoint and the live conversation belong to, the calls begun, and the requests sent.
   */
  datatype Thread = Thread(
    saved: Option<Checkpoint>, live: Option<Live>, runs: nat, savedRun: nat, liveRun: nat,
    begun: seq<Begun>, requests: seq<Request>)

  const NEW_THREAD := Thread(None, None, 0, 0, 0, [], [])

  datatype Step =
    | Run(history: seq<Message>, opening: string)
    | Send
    | Reply(content: seq<Block>, stop: Stop)
    | BeginCall(i: nat)
    | Answer(bodies: seq<string>)
    | HitLimit
    | Close
    | Crash
    | Resume

  // ------------------------------------------------------------------------ resume

  const CONTINUE := "Continue from where you left off."

  /** The last message of a resumed conversation: the note, if there is one, and the order to go on. */
  function ResumeText(names: seq<string>): string {
    (if names == [] then "" else Note(names) + "\n\n") + CONTINUE
  }

  lemma ResumeTextIs(names: seq<string>)
    ensures names == [] ==> ResumeText(names) == "Continue from where you left off."
    ensures names != [] ==> ResumeText(names) == Note(names) + "\n\n" + "Continue from where you left off."
  {
    hide Note;
  }

  /** What `resume` starts from; empty when nothing in the transcript can be resumed. */
  function Resumed(ms: seq<Message>): seq<Message> {
    var trimmed, names := FromFirstUser(DropDangling(ms)), DroppedNames(ms);
    if trimmed == [] then []
    else if names != [] || trimmed[|trimmed| - 1].role == Assistant
    then trimmed + [Message(User, Prose(ResumeText(names)))]
    else trimmed
  }

  // ------------------------------------------------------------------------- steps

  function LastCalls(ms: seq<Message>): (calls: seq<Block>)
    ensures forall i :: 0 <= i < |calls| ==> calls[i].ToolUse?
  {
    if ms == [] then [] else Calls(BlocksOf(ms[|ms| - 1]))
  }

  ghost predicate Enabled(max: nat, t: Thread, s: Step) {
    match s
    case Run(history, _) => t.live.None? && (history == [] || Sendable(history))
    case Send => t.live.Some? && t.live.value.phase.Asking? && t.live.value.turns < max
    case Reply(content, stop) =>
      t.live.Some? && t.live.value.phase.Awaiting? && (stop == StopPause ==> Calls(content) == [])
    case BeginCall(i) =>
      t.live.Some? && t.live.value.phase.Calling? && i < |LastCalls(t.live.value.messages)|
      && i !in t.live.value.phase.begun
    case Answer(bodies) =>
      t.live.Some? && t.live.value.phase.Calling? && |bodies| == |LastCalls(t.live.value.messages)|
      && forall i :: 0 <= i < |bodies| ==> i in t.live.value.phase.begun
    case HitLimit => t.live.Some? && t.live.value.phase.Asking? && t.live.value.turns >= max
    case Close => t.live.Some? && t.live.value.phase.Ending?
    case Crash => true
    case Resume => t.live.None? && t.saved.Some? && Resumed(t.saved.value.messages) != []
  }

  function ResultBlocks(calls: seq<Block>, bodies: seq<string>): (blocks: seq<Block>)
    requires |bodies| == |calls| && forall i :: 0 <= i < |calls| ==> calls[i].ToolUse?
    ensures |blocks| == |calls|
    ensures forall i :: 0 <= i < |calls| ==> blocks[i] == ToolResult(calls[i].id, bodies[i])
  {
    seq(|calls|, i requires 0 <= i < |calls| => ToolResult(calls[i].id, bodies[i]))
  }

  /** Where a reply leads: to its calls, to sending on, or to the end of the run. */
  function PhaseAfter(stop: Stop): Phase {
    match stop
    case StopToolUse => Calling({})
    case StopPause => Asking
    case StopEnd => Ending(RunCompleted)
    case _ => Ending(RunHalted)
  }

  /** The assistant's message is checkpointed before anything it asks for is done. */
  function AfterReply(t: Thread, l: Live, content: seq<Block>, stop: Stop): Thread {
    var ms := l.messages + [Message(Assistant, Blocks(content))];
    t.(saved := Some(Checkpoint(ms, RunRunning)), savedRun := t.liveRun,
       live := Some(l.(messages := ms, phase := PhaseAfter(stop))))
  }

  ghost function Next(max: nat, t: Thread, s: Step): Thread {
    if !Enabled(max, t, s) then t
    else match s
      case Run(history, opening) =>
        t.(live := Some(Live(history + [Message(User, Prose(opening))], Asking, 0)),
           runs := t.runs + 1, liveRun := t.runs + 1)
      case Send =>
        t.(live := Some(t.live.value.(phase := Awaiting, turns := t.live.value.turns + 1)),
           requests := t.requests + [Request(t.live.value.messages, t.liveRun, t.begun)])
      case Reply(content, stop) => AfterReply(t, t.live.value, content, stop)
      case BeginCall(i) =>
        var l := t.live.value;
        t.(live := Some(l.(phase := Calling(l.phase.begun + {i}))), 
           begun := t.begun + [Begun(LastCalls(l.messages)[i], |l.messages| - 1, t.liveRun)])
      case Answer(bodies) =>
        var l := t.live.value;
        var m := Message(User, Blocks(ResultBlocks(LastCalls(l.messages), bodies)));
        t.(live := Some(l.(messages := l.messages + [m], phase := Asking)))
      case HitLimit =>
        t.(saved := Some(Checkpoint(t.live.value.messages, RunHalted)), savedRun := t.liveRun, live := None)
      case Close => t.(saved := Some(Checkpoint(t.live.value.messages, t.live.value.phase.outcome)), live := None)
      case Crash => t.(live := None)
      case Resume => t.(live := Some(Live(Resumed(t.saved.value.messages), Asking, 0)), liveRun := t.savedRun)
  }

  ghost function After(max: nat, t: Thread, steps: seq<Step>): Thread {
    if steps == [] then t else Next(max, After(max, t, steps[..|steps| - 1]), steps[|steps| - 1])
  }

  lemma {:induction false} AfterConcat(max: nat, t: Thread, first: seq<Step>, second: seq<Step>)
    ensures After(max, t, first + second) == After(max, After(max, t, first), second)
  {
    hide Next;
    if second == [] {
      assert first + second == first;
    } else {
      assert (first + second)[..|first + second| - 1] == first + second[..|second| - 1];
      AfterConcat(max, t, first, second[..|second| - 1]);
    }
  }

  /** A crash takes the live conversation; the checkpoint survives it. */
  lemma CrashTakesTheLive(max: nat, t: Thread)
    ensures Next(max, t, Crash) == t.(live := None)
  {
  }

  /** How a run ends: with its outcome checkpointed, or halted at the turn limit. */
  lemma EndingsAreSaved(max: nat, t: Thread, l: Live)
    requires t.live == Some(l)
    ensures l.phase.Ending? ==>
      Next(max, t, Close) == t.(saved := Some(Checkpoint(l.messages, l.phase.outcome)), live := None)
    ensures l.phase == Asking && l.turns >= max ==>
      Next(max, t, HitLimit)
      == t.(saved := Some(Checkpoint(l.messages, RunHalted)), savedRun := t.liveRun, live := None)
  {
  }

  // --------------------------------------------------------------------- invariant

  /** The message at `at` makes the call and the next one has its result. */
  ghost predicate ResultAt(ms: seq<Message>, call: Block, at: nat)
    requires call.ToolUse?
  {
    && at + 1 < |ms| && ms[at].role == Assistant && call in BlocksOf(ms[at])
    && ms[at + 1].role == User && exists body :: ToolResult(call.id, body) in BlocksOf(ms[at + 1])
  }

  /** The message at `at` is the note of an interruption, and names the call. */
  ghost predicate NotedAt(ms: seq<Message>, call: Block, at: nat)
    requires call.ToolUse?
  {
    && at < |ms| && ms[at].role == User
    && exists names :: ms[at].content == Prose(ResumeText(names)) && call.name in names
  }

  /** Where the call was made, the conversation has it with its result, or a note that names it instead. */
  ghost predicate Told(ms: seq<Message>, c: Begun) {
    c.call.ToolUse? && (ResultAt(ms, c.call, c.at) || NotedAt(ms, c.call, c.at))
  }

  /** A checkpoint is a conversation that can be sent, with one more assistant message or without. */
  ghost predicate WellSaved(ms: seq<Message>) {
    Sendable(ms) || EndsWithReply(ms)
  }

  /** A conversation that was sent, and the assistant's reply to it. */
  ghost predicate EndsWithReply(ms: seq<Message>) {
    ms != [] && ms[|ms| - 1].role == Assistant && Sendable(ms[..|ms| - 1])
  }

  ghost predicate LiveOk(t: Thread, l: Live) {
    match l.phase
    case Calling(begun) =>
      && t.saved == Some(Checkpoint(l.messages, RunRunning)) && t.savedRun == t.liveRun
      && l.messages != [] && l.messages[|l.messages| - 1].role == Assistant
      && Sendable(l.messages[..|l.messages| - 1])
      && forall c :: c in t.begun && c.run == t.liveRun ==> Told(l.messages, c) || InHand(l.messages, begun, c)
    case Ending(outcome) =>
      && t.saved == Some(Checkpoint(l.messages, RunRunning)) && t.savedRun == t.liveRun
    case _ => Sendable(l.messages) && forall c :: c in t.begun && c.run == t.liveRun ==> Told(l.messages, c)
  }

  ghost predicate InHand(ms: seq<Message>, begun: set<nat>, c: Begun) {
    c.at + 1 == |ms| && exists i :: 0 <= i < |LastCalls(ms)| && i in begun && LastCalls(ms)[i] == c.call
  }

  ghost predicate SavedOk(t: Thread, cp: Checkpoint) {
    && WellSaved(cp.messages) && (cp.status != RunHalted ==> EndsWithReply(cp.messages))
    && forall c :: c in t.begun && c.run == t.savedRun ==> Told(Resumed(cp.messages), c)
  }

  /** A well-formed request that tells of every call its run had begun. */
  ghost predicate RequestOk(r: Request) {
    Sendable(r.messages) && forall c :: c in r.begun && c.run == r.run ==> Told(r.messages, c)
  }

  ghost predicate Inv(t: Thread) {
    && (t.live.Some? ==> LiveOk(t, t.live.value))
    && (t.saved.Some? ==> SavedOk(t, t.saved.value))
    && (t.saved.None? ==> t.begun == [])
    && t.liveRun <= t.runs && t.savedRun <= t.runs && (forall c :: c in t.begun ==> c.run <= t.runs && c.at >= 1)
    && forall i :: 0 <= i < |t.requests| ==> RequestOk(t.requests[i])
  }

  lemma ToldLater(ms: seq<Message>, more: seq<Message>, c: Begun)
    requires Told(ms, c)
    ensures Told(ms + more, c)
  {
    hide ResumeText;
  }

  /** Resuming never loses what a conversation already told, and tells about the calls it drops. */
  lemma ResumedFromSendable(front: seq<Message>, last: Message)
    requires Sendable(front) && last.role == Assistant
    ensures var ms := front + [last];
      Resumed(ms) == (if Dangles(last) then front else ms) + [Message(User, Prose(ResumeText(Named(last))))]
  {
    hide Note, CONTINUE;
    SendableDoesNotDangle(front);
    var ms := front + [last];
    assert ms[..|ms| - 1] == front;
    if Dangles(last) {
      assert DroppedNames(ms) == Named(last) + DroppedNames(front) == Named(last);
      assert DropDangling(ms) == DropDangling(front) == front;
    } else {
      assert Named(last) == [];
    }
  }

  /** A resumed conversation is one the model can be sent: well formed, from a user message to a user message. */
  lemma ResumedIsSendable(ms: seq<Message>)
    requires WellSaved(ms)
    ensures Sendable(Resumed(ms)) && Resumed(ms)[|Resumed(ms)| - 1].role == User
  {
    hide Note, CONTINUE;
    if Sendable(ms) {
      SendableDoesNotDangle(ms);
      AppendProse(ms, ResumeText([]));
    } else {
      var front, last := ms[..|ms| - 1], ms[|ms| - 1];
      assert ms == front + [last];
      ResumedFromSendable(front, last);
      AppendProse(front, ResumeText(Named(last)));
      if !Dangles(last) {
        AppendTalk(front, last);
      }
    }
  }

  /** What a sendable conversation told, the conversation resumed from it still tells. */
  lemma ResumedTells(ms: seq<Message>, c: Begun)
    requires Sendable(ms) && Told(ms, c)
    ensures Told(Resumed(ms), c)
  {
    hide ResumeText, Told, Sendable, DropDangling, FromFirstUser, Dangles;
    SendableIsNotEmpty(ms);
    SendableDoesNotDangle(ms);
    var tail := if ms[|ms| - 1].role == Assistant then [Message(User, Prose(ResumeText([])))] else [];
    assert Resumed(ms) == ms + tail;
    ToldLater(ms, tail, c);
  }

  /** So does the conversation resumed from one reply later. */
  lemma ResumedTellsAfterReply(ms: seq<Message>, reply: Message, c: Begun)
    requires Sendable(ms) && Told(ms, c) && reply.role == Assistant
    ensures Told(Resumed(ms + [reply]), c)
  {
    hide ResumeText, Told, Sendable, Resumed, Dangles, Named;
    var note := [Message(User, Prose(ResumeText(Named(reply))))];
    ResumedFromSendable(ms, reply);
    ToldLater(ms, note, c);
    ToldLater(ms, [reply], c);
    ToldLater(ms + [reply], note, c);
  }

  /** What a sendable conversation told, the conversation resumed from it, or from one reply later, still tells. */
  lemma ResumedStillTells(ms: seq<Message>, reply: Option<Message>, c: Begun)
    requires Sendable(ms) && Told(ms, c) && (reply.Some? ==> reply.value.role == Assistant)
    ensures Told(Resumed(if reply.Some? then ms + [reply.value] else ms), c)
  {
    hide Told, Sendable, Resumed;
    if reply.Some? {
      ResumedTellsAfterReply(ms, reply.value, c);
    } else {
      ResumedTells(ms, c);
    }
  }

  /** A call that is cut off is named in the note. */
  lemma ResumedNames(front: seq<Message>, last: Message, i: nat, run: nat)
    requires Sendable(front) && last.role == Assistant && i < |Calls(BlocksOf(last))|
    ensures Told(Resumed(front + [last]), Begun(Calls(BlocksOf(last))[i], |front|, run))
  {
    hide Note, CONTINUE;
    var c := Calls(BlocksOf(last))[i];
    assert Named(last)[i] == c.name;
    ResumedFromSendable(front, last);
    var ms := Resumed(front + [last]);
    assert ms[|ms| - 1].content == Prose(ResumeText(Named(last)));
    assert NotedAt(ms, c, |front|);
  }

  // ---------------------------------------------------------------- one step keeps it

  lemma RunKeepsInv(max: nat, t: Thread, s: Step)
    requires Inv(t) && s.Run? && Enabled(max, t, s)
    ensures Inv(Next(max, t, s))
  {
    if s.history != [] {
      AppendProse(s.history, s.opening);
    }
  }

  lemma ReplyKeepsInv(max: nat, t: Thread, s: Step)
    requires Inv(t) && s.Reply? && Enabled(max, t, s)
    ensures Inv(Next(max, t, s))
  {
    hide ResumeText, Resumed, Told;
    var ms, m := t.live.value.messages, Message(Assistant, Blocks(s.content));
    var u := Next(max, t, s);
    assert (ms + [m])[..|ms + [m]| - 1] == ms;
    forall c | c in t.begun && c.run == t.liveRun ensures Told(Resumed(ms + [m]), c) && Told(ms + [m], c) {
      ResumedStillTells(ms, Some(m), c);
      ToldLater(ms, [m], c);
    }
    if s.stop == StopPause {
      AppendTalk(ms, m);
    }
  }

  lemma BeginKeepsInv(max: nat, t: Thread, s: Step)
    requires Inv(t) && s.BeginCall? && Enabled(max, t, s)
    ensures Inv(Next(max, t, s))
  {
    hide ResumeText, Resumed, Told, Sendable;
    var l := t.live.value;
    var u := Next(max, t, s);
    var front, last := l.messages[..|l.messages| - 1], l.messages[|l.messages| - 1];
    assert l.messages == front + [last];
    ResumedNames(front, last, s.i, t.liveRun);
    SendableIsNotEmpty(front);
    forall b | b in u.begun && b.run == t.liveRun
      ensures Told(l.messages, b) || InHand(l.messages, u.live.value.phase.begun, b)
    {
      if b in t.begun {
        if InHand(l.messages, l.phase.begun, b) {
          var i :| 0 <= i < |LastCalls(l.messages)| && i in l.phase.begun && LastCalls(l.messages)[i] == b.call;
          assert i in u.live.value.phase.begun;
        }
      } else {
        assert LastCalls(l.messages)[s.i] == b.call && s.i in u.live.value.phase.begun;
      }
    }
  }

  /** The answer tells the result of every call that was in hand, and what was told before. */
  lemma AnswerTells(ms: seq<Message>, begun: set<nat>, bodies: seq<string>, c: Begun)
    requires ms != [] && ms[|ms| - 1].role == Assistant && |bodies| == |LastCalls(ms)|
    requires Told(ms, c) || InHand(ms, begun, c)
    ensures Told(ms + [Message(User, Blocks(ResultBlocks(LastCalls(ms), bodies)))], c)
  {
    hide NotedAt;
    var calls := LastCalls(ms);
    var m := Message(User, Blocks(ResultBlocks(calls, bodies)));
    if Told(ms, c) {
      ToldLater(ms, [m], c);
    } else {
      var i :| 0 <= i < |calls| && i in begun && calls[i] == c.call;
      hide Calls, ResultBlocks;
      assert BlocksOf(m)[i] == ToolResult(c.call.id, bodies[i]);
      assert ResultAt(ms + [m], c.call, c.at);
    }
  }

  lemma AnswerKeepsInv(max: nat, t: Thread, s: Step)
    requires Inv(t) && s.Answer? && Enabled(max, t, s)
    ensures Inv(Next(max, t, s))
  {
    hide ResumeText, Resumed, Told, InHand, RequestOk, WellSaved, EndsWithReply, Calls;
    var l := t.live.value;
    var front, last := l.messages[..|l.messages| - 1], l.messages[|l.messages| - 1];
    var calls := LastCalls(l.messages);
    var m := Message(User, Blocks(ResultBlocks(calls, s.bodies)));
    assert l.messages == front + [last];
    assert Next(max, t, s) == t.(live := Some(l.(messages := l.messages + [m], phase := Asking)));
    hide Next, Enabled, Sendable;
    AppendExchange(front, last, m);
    hide ResultBlocks;
    forall c | c in t.begun && c.run == t.liveRun ensures Told(l.messages + [m], c) {
      AnswerTells(l.messages, l.phase.begun, s.bodies, c);
    }
  }

  lemma LimitKeepsInv(max: nat, t: Thread, s: Step)
    requires Inv(t) && s.HitLimit? && Enabled(max, t, s)
    ensures Inv(Next(max, t, s))
  {
    hide ResumeText, Resumed, Told;
    forall c | c in t.begun && c.run == t.liveRun ensures Told(Resumed(t.live.value.messages), c) {
      ResumedStillTells(t.live.value.messages, None, c);
    }
  }

  lemma CloseKeepsInv(max: nat, t: Thread)
    requires Inv(t) && Enabled(max, t, Close)
    ensures Inv(Next(max, t, Close))
  {
    hide ResumeText, Resumed, Told, Sendable;
  }

  lemma StepKeepsInv(max: nat, t: Thread, s: Step)
    requires Inv(t)
    ensures Inv(Next(max, t, s))
  {
    hide ResumeText, Resumed, Told, Sendable;
    if Enabled(max, t, s) {
      match s {
        case Run(_, _) => RunKeepsInv(max, t, s);
        case Send =>
        case Reply(_, _) => ReplyKeepsInv(max, t, s);
        case BeginCall(_) => BeginKeepsInv(max, t, s);
        case Answer(_) => AnswerKeepsInv(max, t, s);
        case HitLimit => LimitKeepsInv(max, t, s);
        case Close => CloseKeepsInv(max, t);
        case Crash =>
        case Resume => ResumedIsSendable(t.saved.value.messages);
      }
    }
  }

  lemma {:induction false} ThreadKeepsInv(max: nat, steps: seq<Step>)
    ensures Inv(After(max, NEW_THREAD, steps))
  {
    if steps != [] {
      ThreadKeepsInv(max, steps[..|steps| - 1]);
      StepKeepsInv(max, After(max, NEW_THREAD, steps[..|steps| - 1]), steps[|steps| - 1]);
    }
  }

  // ------------------------------------------------------------------- main results

  /**
   Whatever crashed and whenever, every request the model was ever sent is well formed, and tells it of every tool call
   begun before in the same run: with the call's result, or in a note that names the call.
   */
  lemma NoCallIsForgotten(max: nat, steps: seq<Step>)
    ensures var t := After(max, NEW_THREAD, steps);
      forall i :: 0 <= i < |t.requests| ==>
        && Sendable(t.requests[i].messages)
        && forall c :: c in t.requests[i].begun && c.run == t.requests[i].run ==> Told(t.requests[i].messages, c)
  {
    ThreadKeepsInv(max, steps);
    var t := After(max, NEW_THREAD, steps);
    forall i | 0 <= i < |t.requests|
      ensures Sendable(t.requests[i].messages)
      ensures forall c :: c in t.requests[i].begun && c.run == t.requests[i].run ==> Told(t.requests[i].messages, c)
    {
      assert RequestOk(t.requests[i]);
    }
  }

  /** Checkpoint and live conversation are those of run `r`, which has begun `c`; so are the requests from `n` on. */
  ghost predicate StillIn(t: Thread, r: nat, c: Begun, n: nat) {
    && t.saved.Some? && t.savedRun == r && (t.live.Some? ==> t.liveRun == r) && c in t.begun && n <= |t.requests|
    && forall i :: n <= i < |t.requests| ==> t.requests[i].run == r && c in t.requests[i].begun
  }

  lemma {:induction false} StaysIn(max: nat, t: Thread, steps: seq<Step>, r: nat, c: Begun, n: nat)
    requires StillIn(t, r, c, n) && forall i :: 0 <= i < |steps| ==> !steps[i].Run?
    ensures StillIn(After(max, t, steps), r, c, n)
  {
    if steps != [] {
      StaysIn(max, t, steps[..|steps| - 1], r, c, n);
      StepStaysIn(max, After(max, t, steps[..|steps| - 1]), steps[|steps| - 1], r, c, n);
    }
  }

  lemma StepStaysIn(max: nat, t: Thread, s: Step, r: nat, c: Begun, n: nat)
    requires StillIn(t, r, c, n) && !s.Run?
    ensures StillIn(Next(max, t, s), r, c, n)
  {
    hide Sendable, Resumed, ResultBlocks, LastCalls;
  }

  /**
   A call once begun is told in every later request, through any crashes and resumes, until the thread is run afresh:
   `later` is everything that happens from its beginning on.
   */
  lemma BegunIsToldUntilRunAgain(max: nat, before: seq<Step>, i: nat, later: seq<Step>)
    requires Enabled(max, After(max, NEW_THREAD, before), BeginCall(i))
    requires forall n :: 0 <= n < |later| ==> !later[n].Run?
    ensures var t := After(max, NEW_THREAD, before);
      var c := Begun(LastCalls(t.live.value.messages)[i], |t.live.value.messages| - 1, t.liveRun);
      var u := After(max, NEW_THREAD, before + [BeginCall(i)] + later);
      && |t.requests| <= |u.requests|
      && forall n :: |t.requests| <= n < |u.requests| ==> Told(u.requests[n].messages, c)
  {
    hide Told, LastCalls, Resumed, ResultBlocks, Sendable;
    ThreadKeepsInv(max, before);
    var t := After(max, NEW_THREAD, before);
    var c := Begun(LastCalls(t.live.value.messages)[i], |t.live.value.messages| - 1, t.liveRun);
    BeginIsIn(max, t, i);
    AfterConcat(max, NEW_THREAD, before + [BeginCall(i)], later);
    AfterOneMore(max, NEW_THREAD, before, BeginCall(i));
    StaysIn(max, Next(max, t, BeginCall(i)), later, t.liveRun, c, |t.requests|);
    NoCallIsForgotten(max, before + [BeginCall(i)] + later);
  }

  lemma BeginIsIn(max: nat, t: Thread, i: nat)
    requires Inv(t) && Enabled(max, t, BeginCall(i))
    ensures StillIn(Next(max, t, BeginCall(i)), t.liveRun,
      Begun(LastCalls(t.live.value.messages)[i], |t.live.value.messages| - 1, t.liveRun), |t.requests|)
  {
    hide Told, Sendable, Resumed;
  }

  lemma AfterOneMore(max: nat, t: Thread, steps: seq<Step>, s: Step)
    ensures After(max, t, steps + [s]) == Next(max, After(max, t, steps), s)
  {
    hide Next;
    assert (steps + [s])[..|steps|] == steps;
  }

  /** The thread goes on in this way, and sends its next request. */
  ghost function AskAgain(max: nat, t: Thread, s: Step): Thread {
    Next(max, Next(max, t, s), Send)
  }

  /** What `run` asks first is what it was given, and nothing a thread has begun is told in that. */
  lemma FreshRunForgets(max: nat, steps: seq<Step>, s: Step)
    requires max > 0 && s.Run? && s.history == [] && After(max, NEW_THREAD, steps).live.None?
    ensures var t := After(max, NEW_THREAD, steps); var u := AskAgain(max, t, s);
      && |u.requests| == |t.requests| + 1 && u.requests[|t.requests|].messages == [Message(User, Prose(s.opening))]
      && u.requests[|t.requests|].begun == t.begun
      && forall c :: c in t.begun ==> !Told(u.requests[|t.requests|].messages, c)
  {
    hide Sendable, Resumed, ResumeText;
    ThreadKeepsInv(max, steps);
    var t := After(max, NEW_THREAD, steps);
    var asked := [Message(User, Prose(s.opening))];
    assert [] + asked == asked;
    hide After, LiveOk, SavedOk, RequestOk;
    assert AskAgain(max, t, s).requests == t.requests + [Request(asked, t.runs + 1, t.begun)];
    forall c | c in t.begun ensures !Told(asked, c) {
      NothingToldInOne(asked, c);
    }
  }

  lemma NothingToldInOne(ms: seq<Message>, c: Begun)
    requires |ms| == 1 && c.at >= 1
    ensures !Told(ms, c)
  {
  }

  lemma ResumeRemembers(max: nat, steps: seq<Step>)
    requires max > 0 && After(max, NEW_THREAD, steps).live.None? && After(max, NEW_THREAD, steps).saved.Some?
    ensures var t := After(max, NEW_THREAD, steps); var u := AskAgain(max, t, Resume);
      && |u.requests| == |t.requests| + 1
      && forall c :: c in t.begun && c.run == t.savedRun ==> Told(u.requests[|t.requests|].messages, c)
  {
    hide ResumeText, Resumed, Told, Sendable;
    EveryCrashCanBeResumed(max, steps);
    var t := After(max, NEW_THREAD, steps);
    hide After;
    assert Next(max, t, Crash) == t;
    assert AskAgain(max, t, Resume).requests
        == t.requests + [Request(Resumed(t.saved.value.messages), t.savedRun, t.begun)];
  }

  /**
   Exactly what a crash costs. Whatever has happened to a thread that is not running, a call its checkpoint's run had
   begun is told in the next request if and only if the caller resumes the thread instead of running it afresh.
   */
  lemma ToldExactlyWhenResumed(max: nat, steps: seq<Step>, c: Begun, s: Step)
    requires max > 0 && After(max, NEW_THREAD, steps).live.None?
    requires c in After(max, NEW_THREAD, steps).begun && c.run == After(max, NEW_THREAD, steps).savedRun
    requires s == Resume || (s.Run? && s.history == [])
    ensures var t := After(max, NEW_THREAD, steps); var u := AskAgain(max, t, s);
      |u.requests| == |t.requests| + 1 && (Told(u.requests[|t.requests|].messages, c) <==> s == Resume)
  {
    hide Told, AskAgain, After;
    if s == Resume {
      ThreadKeepsInv(max, steps);
      ResumeRemembers(max, steps);
    } else {
      FreshRunForgets(max, steps, s);
    }
  }

  /** For instance: the first call of a thread, cut off by a crash, is not told when the thread is run afresh. */
  lemma FirstCallForgotten(max: nat, id: string, name: string, goal: string, again: string)
    requires max > 0
    ensures var asked := [Run([], goal), Send, Reply([ToolUse(id, name)], StopToolUse), BeginCall(0), Crash];
      var t := After(max, NEW_THREAD, asked); var u := After(max, t, [Run([], again), Send]);
      && t.begun == [Begun(ToolUse(id, name), 1, 1)]
      && |u.requests| == 2 && u.requests[1].messages == [Message(User, Prose(again))]
      && u.requests[1].begun == t.begun && !Told(u.requests[1].messages, t.begun[0])
  {
    hide Sendable, Resumed, ResumeText, Told;
    var asked := [Run([], goal), Send, Reply([ToolUse(id, name)], StopToolUse), BeginCall(0), Crash];
    CutOff(max, id, name, goal);
    FreshRunForgets(max, asked, Run([], again));
    var t := After(max, NEW_THREAD, asked);
    TwoSteps(max, t, Run([], again), Send);
    hide After, Next;
    assert t.begun[0] in t.begun;
  }

  /** A thread crashed in the middle of its first call. */
  lemma CutOff(max: nat, id: string, name: string, goal: string)
    requires max > 0
    ensures var asked := [Run([], goal), Send, Reply([ToolUse(id, name)], StopToolUse), BeginCall(0), Crash];
      var t := After(max, NEW_THREAD, asked);
      t.live.None? && t.runs == 1 && t.begun == [Begun(ToolUse(id, name), 1, 1)] && |t.requests| == 1
  {
    hide Sendable, Resumed, ResumeText, Calls, ResultBlocks, LastCalls;
    var call := ToolUse(id, name);
    var ask, reply := Message(User, Prose(goal)), Message(Assistant, Blocks([call]));
    FiveSteps(max, NEW_THREAD, Run([], goal), Send, Reply([call], StopToolUse), BeginCall(0), Crash);
    hide After;
    assert [] + [ask] == [ask] && [ask] + [reply] == [ask, reply];
    var t1 := Next(max, NEW_THREAD, Run([], goal));
    assert t1.live == Some(Live([ask], Asking, 0)) && t1.runs == 1 && t1.liveRun == 1;
    var t3 := Next(max, Next(max, t1, Send), Reply([call], StopToolUse));
    assert t3.live == Some(Live([ask, reply], Calling({}), 1)) && |t3.requests| == 1;
    OneCall(ask, id, name);
  }

  lemma OneCall(ask: Message, id: string, name: string)
    ensures LastCalls([ask, Message(Assistant, Blocks([ToolUse(id, name)]))]) == [ToolUse(id, name)]
  {
    var blocks := [ToolUse(id, name)];
    assert blocks[1..] == [] && Calls([]) == [];
    assert Calls(blocks) == [blocks[0]] + Calls(blocks[1..]);
  }

  lemma TwoSteps(max: nat, t: Thread, a: Step, b: Step)
    ensures After(max, t, [a, b]) == Next(max, Next(max, t, a), b)
  {
    hide Next;
    assert [a, b][..1] == [a] && [a][..0] == [];
    assert After(max, t, [a]) == Next(max, After(max, t, []), a);
  }

  lemma FiveSteps(max: nat, t: Thread, a: Step, b: Step, c: Step, d: Step, e: Step)
    ensures After(max, t, [a, b, c, d, e]) == Next(max, Next(max, Next(max, Next(max, Next(max, t, a), b), c), d), e)
  {
    hide Next;
    TwoSteps(max, t, a, b);
    AfterOneMore(max, t, [a, b], c);
    AfterOneMore(max, t, [a, b] + [c], d);
    AfterOneMore(max, t, [a, b] + [c] + [d], e);
    assert [a, b] + [c] + [d] + [e] == [a, b, c, d, e];
  }

  /**
   After any crash there is something to go on from as soon as any call was begun, and the conversation resumed from it
   goes from a user message to a user message, with every call of its run answered or named.
   */
  lemma EveryCrashCanBeResumed(max: nat, steps: seq<Step>)
    ensures var t := After(max, NEW_THREAD, steps);
      && (t.begun != [] ==> t.saved.Some?)
      && (t.saved.Some? ==>
            && Enabled(max, Next(max, t, Crash), Resume)
            && var u := Next(max, Next(max, t, Crash), Resume).live.value;
               && Sendable(u.messages) && u.messages[|u.messages| - 1].role == User
               && forall c :: c in t.begun && c.run == t.savedRun ==> Told(u.messages, c))
  {
    hide ResumeText, Resumed, Told, Sendable;
    ThreadKeepsInv(max, steps);
    var t := After(max, NEW_THREAD, steps);
    if t.saved.Some? {
      ResumedIsSendable(t.saved.value.messages);
      SendableIsNotEmpty(Resumed(t.saved.value.messages));
    }
  }

  /** A checkpoint of a run still running, or completed, is a request that was sent with the one reply it got. */
  lemma CheckpointsEndWithReply(max: nat, steps: seq<Step>)
    ensures var t := After(max, NEW_THREAD, steps);
      t.saved.Some? && t.saved.value.status != RunHalted ==> EndsWithReply(t.saved.value.messages)
  {
    ThreadKeepsInv(max, steps);
  }

  lemma SendableIsNotEmpty(ms: seq<Message>)
    requires Sendable(ms)
    ensures ms != []
  {
  }

  lemma MentionsInFront(text: string, rest: string, name: string)
    requires Mentions(text, name)
    ensures Mentions(text + rest, name)
  {
    MentionsInside("", text, rest, name);
    assert "" + text + rest == text + rest;
  }

  /** Being named is being spelled out: the resumed conversation's text has each name of its note in backquotes. */
  lemma ResumeTextMentions(names: seq<string>, name: string)
    requires name in names
    ensures Mentions(ResumeText(names), name)
  {
    hide Note, CONTINUE;
    NoteMentions(names, name);
    MentionsInFront(Note(names), "\n\n", name);
    MentionsInFront(Note(names) + "\n\n", CONTINUE, name);
  }
}

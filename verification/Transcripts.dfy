/**
 Conversations as the model API accepts them, and `prepare_resume`: what is kept of an interrupted one, and what the
 agent is told about the rest.
 */
module Transcripts {
  import opened Wrappers

  datatype Block =
    | Text(text: string)
    | ToolUse(id: string, name: string)
    | ToolResult(id: string, body: string)
    | Thinking(signature: string)

  datatype Content = Prose(text: string) | Blocks(blocks: seq<Block>)

  datatype Role = User | Assistant

  datatype Message = Message(role: Role, content: Content)

  /** The tool calls in a list of blocks, in order. */
  function Calls(blocks: seq<Block>): (calls: seq<Block>)
    ensures forall i :: 0 <= i < |calls| ==> calls[i].ToolUse? && calls[i] in blocks
  {
    if blocks == [] then []
    else if blocks[0].ToolUse? then [blocks[0]] + Calls(blocks[1..])
    else Calls(blocks[1..])
  }

  function BlocksOf(m: Message): seq<Block> {
    if m.content.Blocks? then m.content.blocks else []
  }

  function CallNames(calls: seq<Block>): (names: seq<string>)
    requires forall i :: 0 <= i < |calls| ==> calls[i].ToolUse?
    ensures |names| == |calls| && forall i :: 0 <= i < |names| ==> names[i] == calls[i].name
  {
    seq(|calls|, i requires 0 <= i < |calls| => calls[i].name)
  }

  /** The names of the calls a message makes. */
  function Named(m: Message): seq<string> {
    CallNames(Calls(BlocksOf(m)))
  }

  /** A list of blocks makes the calls of its parts, in order; a tool-use block is a call, any other is none. */
  lemma {:induction false} CallsAreTheToolUses(front: seq<Block>, back: seq<Block>, b: Block)
    ensures Calls([]) == []
    ensures Calls([b]) == if b.ToolUse? then [b] else []
    ensures Calls(front + back) == Calls(front) + Calls(back)
  {
    assert [b][1..] == [];
    if front == [] {
      assert front + back == back;
    } else {
      assert (front + back)[0] == front[0] && (front + back)[1..] == front[1..] + back;
      CallsAreTheToolUses(front[1..], back, b);
    }
  }

  /** A message names the tools it calls, in order; a text calls none. */
  lemma NamedMeans(m: Message)
    ensures m.content.Prose? ==> Named(m) == []
    ensures m.content.Blocks? ==>
      && |Named(m)| == |Calls(m.content.blocks)|
      && forall i :: 0 <= i < |Named(m)| ==> Named(m)[i] == Calls(m.content.blocks)[i].name
  {
  }

  /** An assistant message whose calls nothing after it answers, if it comes last. */
  predicate Dangles(m: Message) {
    m.role == Assistant && Named(m) != []
  }

  // --------------------------------------------------------------- prepare_resume

  function DropDangling(ms: seq<Message>): seq<Message> {
    if ms == [] || !Dangles(ms[|ms| - 1]) then ms else DropDangling(ms[..|ms| - 1])
  }

  function DroppedNames(ms: seq<Message>): seq<string> {
    if ms == [] || !Dangles(ms[|ms| - 1]) then [] else Named(ms[|ms| - 1]) + DroppedNames(ms[..|ms| - 1])
  }

  function FromFirstUser(ms: seq<Message>): seq<Message> {
    if ms == [] || ms[0].role == User then ms else FromFirstUser(ms[1..])
  }

  function Quoted(names: seq<string>): string {
    if names == [] then ""
    else if |names| == 1 then "`" + names[0] + "`"
    else "`" + names[0] + "`, " + Quoted(names[1..])
  }

  function Note(names: seq<string>): string {
    NOTE_OPENING + Quoted(names) + NOTE_CLOSING
  }

  function NoteFor(ms: seq<Message>): Option<string> {
    if DroppedNames(ms) == [] then None else Some(Note(DroppedNames(ms)))
  }

  /** The prefix to go on from, and the note about the calls that were cut off. */
  method PrepareResume(messages: seq<Message>) returns (trimmed: seq<Message>, note: Option<string>)
    ensures trimmed == FromFirstUser(DropDangling(messages))
    ensures note == NoteFor(messages)
  {
    trimmed := messages;
    var dropped: seq<string> := [];
    while trimmed != []
      invariant DropDangling(trimmed) == DropDangling(messages)
      invariant dropped + DroppedNames(trimmed) == DroppedNames(messages)
      decreases |trimmed|
    {
      var last := trimmed[|trimmed| - 1];
      if last.role != Assistant {
        break;
      }
      var pending := Named(last);
      if pending == [] {
        break;
      }
      dropped := dropped + pending;
      trimmed := trimmed[..|trimmed| - 1];
    }
    assert dropped == DroppedNames(messages);
    while trimmed != [] && trimmed[0].role != User
      invariant FromFirstUser(trimmed) == FromFirstUser(DropDangling(messages))
      decreases |trimmed|
    {
      trimmed := trimmed[1..];
    }
    note := if dropped == [] then None else Some(Note(dropped));
  }

  /** Of a transcript that starts with a user message, the longest prefix that does not end in an unanswered call. */
  lemma {:induction false} KeepsLongestPrefix(ms: seq<Message>)
    requires ms != [] && ms[0].role == User
    ensures var kept := FromFirstUser(DropDangling(ms));
      && kept != [] && kept <= ms && kept == DropDangling(ms) && !Dangles(kept[|kept| - 1])
      && forall i :: |kept| <= i < |ms| ==> Dangles(ms[i])
  {
    var front := ms[..|ms| - 1];
    if Dangles(ms[|ms| - 1]) {
      assert front[0] == ms[0];
      KeepsLongestPrefix(front);
    }
  }

  /** Every tool call of a stretch of conversation, in order. */
  function NamesIn(ms: seq<Message>): seq<string> {
    if ms == [] then [] else Named(ms[0]) + NamesIn(ms[1..])
  }

  lemma {:induction false} NamesInAppend(ms: seq<Message>, m: Message)
    ensures NamesIn(ms + [m]) == NamesIn(ms) + Named(m)
  {
    hide Named;
    if ms == [] {
      assert [] + [m] == [m] && [m][1..] == [];
    } else {
      assert (ms + [m])[0] == ms[0] && (ms + [m])[1..] == ms[1..] + [m];
      NamesInAppend(ms[1..], m);
      Reassociate(Named(ms[0]), NamesIn(ms[1..]), Named(m));
    }
  }

  lemma Reassociate(a: seq<string>, b: seq<string>, c: seq<string>)
    ensures a + (b + c) == (a + b) + c
  {
  }

  lemma {:induction false} DropsASuffix(ms: seq<Message>)
    ensures DropDangling(ms) <= ms
    ensures DroppedNames(ms) == [] <==> DropDangling(ms) == ms
  {
    if ms != [] && Dangles(ms[|ms| - 1]) {
      DropsASuffix(ms[..|ms| - 1]);
    }
  }

  lemma MultisetSwap(a: seq<string>, b: seq<string>)
    ensures multiset(a + b) == multiset(b + a)
  {
  }

  /** The note names the calls of the messages that were dropped: each of them, as often as it was called, no others. */
  lemma {:induction false} NoteNamesWhatWasDropped(ms: seq<Message>)
    ensures DropDangling(ms) <= ms
    ensures multiset(DroppedNames(ms)) == multiset(NamesIn(ms[|DropDangling(ms)|..]))
    ensures NoteFor(ms) == None <==> DropDangling(ms) == ms
  {
    hide Note, Named, Dangles;
    DropsASuffix(ms);
    if ms == [] || !Dangles(ms[|ms| - 1]) {
      assert ms[|ms|..] == [];
    } else {
      var front, last := ms[..|ms| - 1], ms[|ms| - 1];
      DropsASuffix(front);
      NoteNamesWhatWasDropped(front);
      var rest := front[|DropDangling(front)|..];
      assert ms[|DropDangling(front)|..] == rest + [last];
      NamesInAppend(rest, last);
      MultisetSwap(NamesIn(rest), Named(last));
      assert multiset(Named(last) + DroppedNames(front)) == multiset(Named(last)) + multiset(DroppedNames(front));
      assert multiset(Named(last) + NamesIn(rest)) == multiset(Named(last)) + multiset(NamesIn(rest));
    }
  }

  lemma {:induction false} FromFirstUserKeepsEnd(ms: seq<Message>)
    ensures var t := FromFirstUser(ms);
      && (t != [] ==> ms != [] && t[0].role == User && t[|t| - 1] == ms[|ms| - 1])
      && FromFirstUser(t) == t
  {
    if ms != [] && ms[0].role != User {
      FromFirstUserKeepsEnd(ms[1..]);
    }
  }

  /** Only messages before the first one from the user go. */
  lemma {:induction false} FromFirstUserSkips(ms: seq<Message>) returns (n: nat)
    ensures n <= |ms| && FromFirstUser(ms) == ms[n..]
    ensures forall i :: 0 <= i < n ==> ms[i].role != User
    ensures n < |ms| ==> ms[n].role == User
  {
    if ms == [] || ms[0].role == User {
      n := 0;
    } else {
      var k := FromFirstUserSkips(ms[1..]);
      n := k + 1;
      forall i | 0 <= i < n ensures ms[i].role != User {
        assert i > 0 ==> ms[i] == ms[1..][i - 1];
      }
    }
  }

  lemma {:induction false} DropDanglingEnds(ms: seq<Message>)
    ensures var t := DropDangling(ms); t != [] ==> !Dangles(t[|t| - 1])
  {
    if ms != [] && Dangles(ms[|ms| - 1]) {
      DropDanglingEnds(ms[..|ms| - 1]);
    }
  }

  /** Preparing what was prepared changes nothing and has nothing more to report. */
  lemma PrepareIsIdempotent(ms: seq<Message>)
    ensures var once := FromFirstUser(DropDangling(ms));
      FromFirstUser(DropDangling(once)) == once && NoteFor(once) == None
  {
    hide Note;
    DropDanglingEnds(ms);
    FromFirstUserKeepsEnd(DropDangling(ms));
  }

  predicate PieceAt(text: string, piece: string, i: nat) {
    i + |piece| <= |text| && text[i..i + |piece|] == piece
  }

  /** `text` has `name` in it, in backquotes. */
  ghost predicate Mentions(text: string, name: string) {
    exists i: nat :: PieceAt(text, "`" + name + "`", i)
  }

  lemma MentionsInside(before: string, text: string, after: string, name: string)
    requires Mentions(text, name)
    ensures Mentions(before + text + after, name)
  {
    var piece := "`" + name + "`";
    var i: nat :| PieceAt(text, piece, i);
    var whole := before + text + after;
    var j := |before| + i;
    assert whole[j..j + |piece|] == text[i..i + |piece|];
    assert PieceAt(whole, piece, j);
  }

  lemma {:induction false} QuotedMentions(names: seq<string>, name: string)
    requires name in names
    ensures Mentions(Quoted(names), name)
  {
    var piece := "`" + name + "`";
    if names[0] == name {
      var rest := if |names| == 1 then "" else ", " + Quoted(names[1..]);
      assert Quoted(names) == piece + rest;
      assert PieceAt(Quoted(names), piece, 0);
    } else {
      QuotedMentions(names[1..], name);
      MentionsInside("`" + names[0] + "`, ", Quoted(names[1..]), "", name);
      assert Quoted(names) == "`" + names[0] + "`, " + Quoted(names[1..]) + "";
    }
  }

  const NOTE_OPENING := "This run was interrupted. You had called "
  const NOTE_CLOSING := " but the process stopped before the result came back, so those calls "
    + "may or may not have taken effect — check current state before "
    + "assuming either way, and re-request approval for anything that writes."

  /** Names in backquotes, with commas between. */
  lemma {:induction false} QuotedText(front: seq<string>, name: string)
    ensures Quoted([]) == "" && Quoted([name]) == "`" + name + "`"
    ensures front != [] ==> Quoted(front + [name]) == Quoted(front) + ", `" + name + "`"
  {
    if |front| == 1 {
      assert front + [name] == [front[0], name] && [front[0], name][1..] == [name];
      assert "`" + front[0] + "`, " + ("`" + name + "`") == "`" + front[0] + "`" + ", `" + name + "`";
    } else if |front| > 1 {
      QuotedText(front[1..], name);
      assert (front + [name])[0] == front[0] && (front + [name])[1..] == front[1..] + [name];
      var head := "`" + front[0] + "`, ";
      assert head + (Quoted(front[1..]) + ", `" + name + "`") == head + Quoted(front[1..]) + ", `" + name + "`";
    }
  }

  /** The note, around the names. */
  lemma NoteText(names: seq<string>)
    ensures Note(names) == NOTE_OPENING + Quoted(names) + NOTE_CLOSING
    ensures NOTE_OPENING == "This run was interrupted. You had called "
    ensures NOTE_CLOSING == " but the process stopped before the result came back, so those calls "
      + "may or may not have taken effect — check current state before "
      + "assuming either way, and re-request approval for anything that writes."
  {
  }

  /** The note spells out every name it is given. */
  lemma NoteMentions(names: seq<string>, name: string)
    requires name in names
    ensures Mentions(Note(names), name)
  {
    QuotedMentions(names, name);
    hide NOTE_OPENING, NOTE_CLOSING;
    MentionsInside(NOTE_OPENING, Quoted(names), NOTE_CLOSING, name);
  }

  // ----------------------------------------------------------- well-formed requests

  /** One user message with the results of these calls, each under its id, in their order. */
  ghost predicate Answers(m: Message, calls: seq<Block>)
    requires forall i :: 0 <= i < |calls| ==> calls[i].ToolUse?
  {
    && m.role == User && m.content.Blocks? && |m.content.blocks| == |calls|
    && forall i :: 0 <= i < |calls| ==> m.content.blocks[i].ToolResult? && m.content.blocks[i].id == calls[i].id
  }

  ghost predicate AnsweredAt(ms: seq<Message>, i: nat)
    requires i < |ms|
  {
    Dangles(ms[i]) ==> i + 1 < |ms| && Answers(ms[i + 1], Calls(BlocksOf(ms[i])))
  }

  predicate HasResults(m: Message) {
    m.role == User && exists b :: b in BlocksOf(m) && b.ToolResult?
  }

  ghost predicate AskedFor(ms: seq<Message>, i: nat)
    requires i < |ms|
  {
    HasResults(ms[i]) ==> i > 0 && ms[i - 1].role == Assistant && Answers(ms[i], Calls(BlocksOf(ms[i - 1])))
  }

  /** What the API accepts: a user message first, every call answered next, no result without its call. */
  ghost predicate Sendable(ms: seq<Message>) {
    && ms != [] && ms[0].role == User
    && (forall i :: 0 <= i < |ms| ==> AnsweredAt(ms, i))
    && forall i :: 0 <= i < |ms| ==> AskedFor(ms, i)
  }

  /** A user message with no results in it extends any sendable conversation. */
  lemma AppendProse(ms: seq<Message>, text: string)
    requires Sendable(ms)
    ensures Sendable(ms + [Message(User, Prose(text))])
  {
    var m := Message(User, Prose(text));
    var t := ms + [m];
    forall i | 0 <= i < |t| ensures AnsweredAt(t, i) && AskedFor(t, i) {
      if i < |ms| {
        assert AnsweredAt(ms, i) && AskedFor(ms, i);
      }
    }
  }

  /** So does an assistant message that calls nothing. */
  lemma AppendTalk(ms: seq<Message>, m: Message)
    requires Sendable(ms) && m.role == Assistant && !Dangles(m)
    ensures Sendable(ms + [m])
  {
    var t := ms + [m];
    forall i | 0 <= i < |t| ensures AnsweredAt(t, i) && AskedFor(t, i) {
      if i < |ms| {
        assert AnsweredAt(ms, i) && AskedFor(ms, i);
      }
    }
  }

  /** And an assistant message together with the answer to all its calls. */
  lemma AppendExchange(ms: seq<Message>, m: Message, answer: Message)
    requires Sendable(ms) && m.role == Assistant && Answers(answer, Calls(BlocksOf(m)))
    ensures Sendable(ms + [m] + [answer])
  {
    var t := ms + [m] + [answer];
    forall i | 0 <= i < |t| ensures AnsweredAt(t, i) && AskedFor(t, i) {
      if i < |ms| {
        assert AnsweredAt(ms, i) && AskedFor(ms, i);
      }
    }
  }

  /** A sendable conversation that ends in calls would have them unanswered: it never does. */
  lemma SendableDoesNotDangle(ms: seq<Message>)
    requires Sendable(ms)
    ensures !Dangles(ms[|ms| - 1]) && DropDangling(ms) == ms && FromFirstUser(ms) == ms && DroppedNames(ms) == []
  {
    assert AnsweredAt(ms, |ms| - 1);
  }
}

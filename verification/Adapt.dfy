/** The adapter between the host's messages and the engine's view of them (src/adapt.ts). */
module Adapt {
  import opened Messages
  import opened Boundary
  import opened JsStrings

  /** Arguments of a tool call: a string as is, anything else already serialised. */
  datatype CallArguments = Text(s: string) | Json(serialised: string)

  datatype Block = TextBlock(text: Option<string>) | ToolCall(name: Option<string>, arguments: CallArguments) | OtherBlock

  datatype Content = Str(s: string) | Blocks(blocks: seq<Block>) | Missing

  datatype AgentMessage =
    | UserMsg(content: Content)
    | AssistantMsg(blocks: seq<Block>)
    | ToolResultMsg(toolName: Option<string>, content: Content)
    | CustomMsg(content: Content)
    | BashExecution(command: Option<string>, output: Option<string>)
    | BranchSummary(summary: Option<string>)
    | CompactionSummary(summary: Option<string>)
    | OtherMsg

  function MessageRole(m: AgentMessage): Role {
    match m
    case ToolResultMsg(_, _) => Tool
    case UserMsg(_) => User
    case AssistantMsg(_) => Assistant
    case _ => Custom
  }

  /** The first tool call of an assistant message is its block `i`. */
  ghost predicate CallsFirstAt(blocks: seq<Block>, i: int) {
    0 <= i < |blocks| && blocks[i].ToolCall? && forall j :: 0 <= j < i ==> !blocks[j].ToolCall?
  }

  function FirstCall(blocks: seq<Block>): (call: Option<Block>)
    ensures call.Some? ==> exists i :: 0 <= i < |blocks| && blocks[i] == call.value && CallsFirstAt(blocks, i)
    ensures call.None? ==> forall i :: 0 <= i < |blocks| ==> !blocks[i].ToolCall?
  {
    if blocks == [] then None
    else if blocks[0].ToolCall? then Some(blocks[0])
    else FirstCall(blocks[1..])
  }

  function MessageToolName(m: AgentMessage): Option<string> {
    match m
    case ToolResultMsg(name, _) => name
    case AssistantMsg(blocks) =>
      var call := FirstCall(blocks);
      if call.Some? then call.value.name else None
    case _ => None
  }

  function Texts(blocks: seq<Block>): seq<string> {
    if blocks == [] then []
    else (if blocks[0].TextBlock? && blocks[0].text.Some? then [blocks[0].text.value] else []) + Texts(blocks[1..])
  }

  function ContentText(content: Content): string {
    match content
    case Str(s) => s
    case Blocks(blocks) => JoinLines(Texts(blocks))
    case Missing => ""
  }

  function OrEmpty(s: Option<string>): string {
    if s.Some? then s.value else ""
  }

  function MessageText(m: AgentMessage): string {
    match m
    case ToolResultMsg(_, content) => ContentText(content)
    case UserMsg(content) => ContentText(content)
    case AssistantMsg(blocks) => ContentText(Blocks(blocks))
    case CustomMsg(content) => ContentText(content)
    case BashExecution(command, output) => OrEmpty(command) + "\n" + OrEmpty(output)
    case BranchSummary(summary) => OrEmpty(summary)
    case CompactionSummary(summary) => OrEmpty(summary)
    case OtherMsg => ""
  }

  function CallInput(blocks: seq<Block>): Option<string> {
    var call := FirstCall(blocks);
    if call.None? then None
    else Some(match call.value.arguments case Text(s) => s case Json(serialised) => serialised)
  }

  function ToEngineMessage(m: AgentMessage): EngineMessage {
    EngineMessage(
      MessageRole(m),
      MessageText(m),
      MessageToolName(m),
      if m.AssistantMsg? then CallInput(m.blocks) else None,
      if m.ToolResultMsg? then Some(MessageText(m)) else None)
  }

  function ToEngineMessages(ms: seq<AgentMessage>): seq<EngineMessage> {
    seq(|ms|, i requires 0 <= i < |ms| => ToEngineMessage(ms[i]))
  }

  // ----- What the engine sees ----------------------------------------------

  lemma {:induction false} TextsConcat(a: seq<Block>, b: seq<Block>)
    ensures Texts(a + b) == Texts(a) + Texts(b)
  {
    if a == [] {
      assert a + b == b;
    } else {
      assert (a + b)[1..] == a[1..] + b;
      TextsConcat(a[1..], b);
    }
  }

  /** A text block contributes its text; a block of another kind, or without text, nothing. */
  lemma TextsOfOne(block: Block)
    ensures Texts([block]) == match block case TextBlock(Some(text)) => [text] case _ => []
  {
    assert [block][1..] == [];
  }

  /** The texts of the blocks, in order, with a line break between any two. */
  lemma BlocksJoin(a: seq<Block>, b: seq<Block>)
    ensures var ta, tb, all := ContentText(Blocks(a)), ContentText(Blocks(b)), ContentText(Blocks(a + b));
            all == if Texts(a) == [] then tb else if Texts(b) == [] then ta else ta + "\n" + tb
  {
    TextsConcat(a, b);
    if Texts(a) == [] {
      assert Texts(a) + Texts(b) == Texts(b);
    } else if Texts(b) == [] {
      assert Texts(a) + Texts(b) == Texts(a);
    } else {
      JoinConcat(Texts(a), Texts(b));
    }
  }

  /** Roles, tools and arguments of the engine's view of one host message. */
  lemma SeenByEngine(m: AgentMessage)
    ensures var e := ToEngineMessage(m);
            && (e.role == Tool <==> m.ToolResultMsg?) && (e.role == User <==> m.UserMsg?) && (e.role == Assistant <==> m.AssistantMsg?)
            && (m.ToolResultMsg? ==> e.toolName == m.toolName && e.output == Some(e.text))
            && (!m.ToolResultMsg? ==> e.output == None)
            && (!m.AssistantMsg? ==> e.input == None)
            && (!m.AssistantMsg? && !m.ToolResultMsg? ==> e.toolName == None)
    ensures m.AssistantMsg? ==>
              var e := ToEngineMessage(m);
              if i :| CallsFirstAt(m.blocks, i)
              then e.toolName == m.blocks[i].name
                   && e.input == Some(if m.blocks[i].arguments.Text? then m.blocks[i].arguments.s else m.blocks[i].arguments.serialised)
              else e.toolName == None && e.input == None
  {
  }

  /** The text the engine reads off one host message. */
  lemma TextSeen(m: AgentMessage)
    ensures var text := ToEngineMessage(m).text;
            match m
            case UserMsg(Str(s)) => text == s
            case CustomMsg(Str(s)) => text == s
            case ToolResultMsg(_, Str(s)) => text == s
            case UserMsg(Blocks(bs)) => text == JoinLines(Texts(bs))
            case CustomMsg(Blocks(bs)) => text == JoinLines(Texts(bs))
            case ToolResultMsg(_, Blocks(bs)) => text == JoinLines(Texts(bs))
            case AssistantMsg(bs) => text == JoinLines(Texts(bs))
            case BashExecution(Some(command), Some(output)) => text == command + "\n" + output
            case BashExecution(None, None) => text == "\n"
            case BashExecution(_, _) => '\n' in text
            case BranchSummary(Some(s)) => text == s
            case CompactionSummary(Some(s)) => text == s
            case _ => text == ""
  {}

  /** The user messages among the host's own. */
  function HostUsers(ms: seq<AgentMessage>): nat {
    if ms == [] then 0 else (if ms[0].UserMsg? then 1 else 0) + HostUsers(ms[1..])
  }

  /** The engine counts exactly the host's user messages. */
  lemma {:induction false} UsersSeen(ms: seq<AgentMessage>)
    ensures UserCount(ToEngineMessages(ms)) == HostUsers(ms)
  {
    if ms != [] {
      UsersSeen(ms[1..]);
      assert ToEngineMessages(ms)[1..] == ToEngineMessages(ms[1..]);
    }
  }

  // ----- Dropping on the host ----------------------------------------------

  /** Every named tool result of the host transcript follows an assistant message that calls a named tool. */
  ghost predicate TranscriptOrphanFree(ms: seq<AgentMessage>) {
    forall r :: 0 <= r < |ms| && ms[r].ToolResultMsg? && Truthy(ms[r].toolName) ==>
                  exists c :: 0 <= c < r && CallsTool(ms[c])
  }

  predicate CallsTool(m: AgentMessage) {
    m.AssistantMsg? && Truthy(MessageToolName(m))
  }

  lemma TranscriptMatchesView(ms: seq<AgentMessage>)
    ensures TranscriptOrphanFree(ms) <==> OrphanFree(ToEngineMessages(ms))
  {
    var view := ToEngineMessages(ms);
    forall r | 0 <= r < |ms|
      ensures HasCall(view[..r]) <==> exists c :: 0 <= c < r && CallsTool(ms[c])
    {
      forall c | 0 <= c < r
        ensures HasToolUse(view[..r][c]) <==> CallsTool(ms[c])
      {}
      if c :| 0 <= c < r && CallsTool(ms[c]) {
        assert HasToolUse(view[..r][c]);
      }
      if HasCall(view[..r]) {
        var c :| 0 <= c < r && HasToolUse(view[..r][c]);
        assert CallsTool(ms[c]);
      }
    }
    forall r | 0 <= r < |ms|
      ensures IsToolResult(view[r]) <==> ms[r].ToolResultMsg? && Truthy(ms[r].toolName)
    {}
  }

  /** The drop computed on the engine view, applied to the host's own array. */
  ghost function DroppedTranscript(ms: seq<AgentMessage>, keepFrom: int, n: int): seq<AgentMessage> {
    ms[DropEnd(ToEngineMessages(ms), keepFrom, n)..]
  }

  method DropCompactedRange(ms: seq<AgentMessage>, keepFrom: int, anchorUserMessages: int)
    returns (kept: seq<AgentMessage>)
    ensures kept == DroppedTranscript(ms, keepFrom, anchorUserMessages)
  {
    if |ms| == 0 {
      return ms;
    }
    var dropStart, dropEnd := ComputeDropRange(ToEngineMessages(ms), keepFrom, anchorUserMessages);
    if dropEnd <= 0 {
      return ms;
    }
    return ms[dropEnd..];
  }

  /**
   * Viewing commutes with dropping, so what is proved of the engine view holds of the host's
   * transcript: an orphan-free one stays orphan-free and keeps the floor of its own user messages.
   */
  lemma DropCommutesWithView(ms: seq<AgentMessage>, keepFrom: int, n: int)
    ensures var kept := DroppedTranscript(ms, keepFrom, n);
            && ToEngineMessages(kept) == DropView(ToEngineMessages(ms), keepFrom, n)
            && (TranscriptOrphanFree(ms) ==> TranscriptOrphanFree(kept))
            && (0 < n <= HostUsers(ms) ==> HostUsers(kept) >= n)
  {
    var view := ToEngineMessages(ms);
    var e := DropEnd(view, keepFrom, n);
    assert ToEngineMessages(ms[e..]) == view[e..];
    TranscriptMatchesView(ms);
    TranscriptMatchesView(ms[e..]);
    UsersSeen(ms);
    UsersSeen(ms[e..]);
    if e > 0 {
      PairSafeIffSliceOrphanFree(view, e);
    } else {
      assert ms[e..] == ms;
    }
  }
}

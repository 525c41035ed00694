/**
  The codex adapter: pairs tool calls with tool results although codex may announce an item when it
  starts, when it completes, or both. JSON lines come as typed values.
*/
module CodexAdapter {
  import opened Sequences
  import opened Wrappers

  datatype ItemId = ItemId(name: string)

  /** An item of a codex event; `input` stands for its fields other than the id and the type. */
  datatype Item = Item(id: Option<ItemId>, kind: string, input: string, output: Option<string>, text: Option<string>)

  datatype Tokens = Tokens(input: nat, output: nat, reasoning: nat, cached: Option<nat>)

  datatype Kind =
    | TurnStarted
    | ItemStarted(item: Option<Item>)
    | ItemCompleted(item: Option<Item>)
    | TurnCompleted(usage: Option<Tokens>)
    | OtherKind

  datatype Line = Blank | NotJson(text: string) | Json(text: string, model: Option<string>, kind: Kind)

  datatype Event =
    | Output(text: string)
    | AgentOutput(text: string)
    | TurnStart(turn: nat)
    | TurnEnd(turn: nat, model: Option<string>)
    | ToolCall(id: ItemId, name: string, input: string)
    | ToolResult(id: ItemId, content: string)
    | ModelUsage(inputTokens: nat, outputTokens: nat, cacheRead: Option<nat>, model: Option<string>)

  datatype State = State(turnCounter: nat, lastModel: Option<string>, emitted: set<ItemId>)

  const FRESH := State(0, None, {})

  // ---------- One line, as a function ----------

  predicate IsTool(item: Item) {
    item.kind != "reasoning" && item.kind != "agent_message"
  }

  function Content(item: Item): string {
    if item.output.Some? then item.output.value else if item.text.Some? then item.text.value else ""
  }

  function CallFor(s: State, item: Item): seq<Event>
    requires item.id.Some?
  {
    if item.id.value in s.emitted then [] else [ToolCall(item.id.value, item.kind, item.input)]
  }

  function Mentioned(s: State, item: Item): State
    requires item.id.Some?
  {
    s.(emitted := s.emitted + {item.id.value})
  }

  function StepItem(s: State, item: Item, completed: bool): (State, seq<Event>) {
    if item.id.None? then (s, [])
    else if IsTool(item) then
      (Mentioned(s, item), CallFor(s, item) + if completed then [ToolResult(item.id.value, Content(item))] else [])
    else if completed && item.kind == "agent_message" then
      (s, [AgentOutput(if item.text.Some? then item.text.value else "")])
    else (s, [])
  }

  function Step(s0: State, line: Line): (State, seq<Event>) {
    match line
    case Blank => (s0, [])
    case NotJson(text) => (s0, [Output(text)])
    case Json(text, model, kind) =>
      var s := if model.Some? then s0.(lastModel := model) else s0;
      match kind
      case TurnStarted => (s.(turnCounter := s.turnCounter + 1), [TurnStart(s.turnCounter + 1)])
      case ItemStarted(Some(item)) => StepItem(s, item, false)
      case ItemCompleted(Some(item)) => StepItem(s, item, true)
      case ItemStarted(None) => (s, [])
      case ItemCompleted(None) => (s, [])
      case TurnCompleted(None) => (s, [TurnEnd(s.turnCounter, s.lastModel)])
      case TurnCompleted(Some(u)) =>
        (s, [TurnEnd(s.turnCounter, s.lastModel), ModelUsage(u.input, u.output + u.reasoning, u.cached, s.lastModel)])
      case OtherKind => (s, [Output(text)])
  }

  function Transcript(s: State, lines: seq<Line>): seq<Event>
    decreases |lines|
  {
    if lines == [] then []
    else
      var (next, events) := Step(s, lines[0]);
      events + Transcript(next, lines[1..])
  }

  // ---------- The parser itself ----------

  class CodexParser {
    var turnCounter: nat
    var lastModel: Option<string>
    var toolCallEmitted: set<ItemId>

    ghost function Abs(): State
      reads this
    {
      State(turnCounter, lastModel, toolCallEmitted)
    }

    constructor ()
      ensures Abs() == FRESH
    {
      turnCounter, lastModel, toolCallEmitted := 0, None, {};
    }

    method HandleItemStarted(item: Item) returns (events: seq<Event>)
      modifies this`toolCallEmitted
      ensures (Abs(), events) == StepItem(old(Abs()), item, false)
    {
      events := [];
      if item.id.None? || !IsTool(item) || item.id.value in toolCallEmitted {
        assert item.id.Some? && IsTool(item)
               ==> toolCallEmitted + {item.id.value} == toolCallEmitted && [] + [] == events;
        return;
      }
      toolCallEmitted := toolCallEmitted + {item.id.value};
      events := [ToolCall(item.id.value, item.kind, item.input)];
      assert events + [] == events;
    }

    method HandleItemCompleted(item: Item) returns (events: seq<Event>)
      modifies this`toolCallEmitted
      ensures (Abs(), events) == StepItem(old(Abs()), item, true)
    {
      events := [];
      if item.id.None? || item.kind == "reasoning" {
        return;
      }
      var id := item.id.value;
      if item.kind == "agent_message" {
        return [AgentOutput(if item.text.Some? then item.text.value else "")];
      }
      if id !in toolCallEmitted {
        toolCallEmitted := toolCallEmitted + {id};
        events := events + [ToolCall(id, item.kind, item.input)];
      } else {
        assert toolCallEmitted + {id} == toolCallEmitted;
      }
      assert events == CallFor(old(Abs()), item);
      events := events + [ToolResult(id, Content(item))];
    }

    method ParseLine(line: Line) returns (events: seq<Event>)
      modifies this
      ensures (Abs(), events) == Step(old(Abs()), line)
    {
      if line.Blank? {
        return [];
      }
      if line.NotJson? {
        return [Output(line.text)];
      }
      if line.model.Some? {
        lastModel := line.model;
      }
      match line.kind
      case TurnStarted =>
        turnCounter := turnCounter + 1;
        events := [TurnStart(turnCounter)];
      case ItemStarted(Some(item)) => events := HandleItemStarted(item);
      case ItemCompleted(Some(item)) => events := HandleItemCompleted(item);
      case ItemStarted(None) => events := [];
      case ItemCompleted(None) => events := [];
      case TurnCompleted(usage) =>
        events := [TurnEnd(turnCounter, lastModel)];
        if usage.Some? {
          var u := usage.value;
          events := events + [ModelUsage(u.input, u.output + u.reasoning, u.cached, lastModel)];
          assert events == [TurnEnd(turnCounter, lastModel),
                 ModelUsage(u.input, u.output + u.reasoning, u.cached, lastModel)];
        }
      case OtherKind => events := [Output(line.text)];
    }
  }

  // ---------- Every item is called once, before its results ----------

  function Called(e: Event): Option<ItemId> {
    if e.ToolCall? then Some(e.id) else None
  }

  function Answered(e: Event): Option<ItemId> {
    if e.ToolResult? then Some(e.id) else None
  }

  /** The tool item a line is about. */
  function ToolItem(line: Line): Option<ItemId> {
    match line
    case Json(_, _, ItemStarted(Some(item))) => if IsTool(item) then item.id else None
    case Json(_, _, ItemCompleted(Some(item))) => if IsTool(item) then item.id else None
    case _ => None
  }

  function CompletedTool(line: Line): Option<ItemId> {
    if line.Json? && line.kind.ItemCompleted? then ToolItem(line) else None
  }

  /** Every result comes after a call with its id, counting those in `seen` as called before. */
  predicate ResultsFollowCalls(events: seq<Event>, seen: set<ItemId>)
    decreases |events|
  {
    events == []
    || ((events[0].ToolResult? ==> events[0].id in seen)
        && ResultsFollowCalls(events[1..], if events[0].ToolCall? then seen + {events[0].id} else seen))
  }

  function IdSet(ids: seq<ItemId>): set<ItemId> {
    set id | id in ids
  }

  lemma {:induction false} ResultsFollowAppend(a: seq<Event>, b: seq<Event>, seen: set<ItemId>)
    requires ResultsFollowCalls(a, seen) && ResultsFollowCalls(b, seen + IdSet(Select(Called, a)))
    ensures ResultsFollowCalls(a + b, seen)
    decreases |a|
  {
    if a == [] {
      assert a + b == b && seen + IdSet([]) == seen;
    } else {
      var next := if a[0].ToolCall? then seen + {a[0].id} else seen;
      assert (a + b)[0] == a[0] && (a + b)[1..] == a[1..] + b;
      assert Select(Called, a) == (if a[0].ToolCall? then [a[0].id] else []) + Select(Called, a[1..]);
      assert next + IdSet(Select(Called, a[1..])) == seen + IdSet(Select(Called, a));
      ResultsFollowAppend(a[1..], b, next);
    }
  }

  /** One line: a call for a tool item not seen yet, then perhaps its result, which is never without a call. */
  lemma OtherStepPairs(s: State, line: Line)
    requires ToolItem(line).None?
    ensures var (n, events) := Step(s, line);
            && Select(Called, events) == [] && Select(Answered, events) == [] && CompletedTool(line).None?
            && n.emitted == s.emitted && ResultsFollowCalls(events, s.emitted)
  {
    var (n, events) := Step(s, line);
    SelectNothing(Called, events);
    SelectNothing(Answered, events);
    NoTools(events, s.emitted);
  }

  lemma StepPairs(s: State, line: Line)
    ensures var (n, events) := Step(s, line); var tool := ToolItem(line);
            && Select(Called, events) == (if tool.Some? && tool.value !in s.emitted then [tool.value] else [])
            && Select(Answered, events) == (if CompletedTool(line).Some? then [CompletedTool(line).value] else [])
            && n.emitted == (if tool.Some? then s.emitted + {tool.value} else s.emitted)
            && ResultsFollowCalls(events, s.emitted)
  {
    var (n, events) := Step(s, line);
    if ToolItem(line).Some? {
      var item := line.kind.item.value;
      PairOf(ToolCall(item.id.value, item.kind, item.input), ToolResult(item.id.value, Content(item)));
      assert [] + [ToolResult(item.id.value, Content(item))] == [ToolResult(item.id.value, Content(item))];
    } else {
      OtherStepPairs(s, line);
    }
  }

  lemma PairOf(call: Event, result: Event)
    requires call.ToolCall? && result.ToolResult?
    ensures Select(Called, [call]) == [call.id] && Select(Answered, [call]) == []
    ensures Select(Called, [result]) == [] && Select(Answered, [result]) == [result.id]
    ensures Select(Called, [call] + [result]) == [call.id] && Select(Answered, [call] + [result]) == [result.id]
    ensures ([call] + [result])[1..] == [result] && [call][1..] == [result][1..] == []
  {
    SelectPush(Called, [], call);
    SelectPush(Called, [], result);
    SelectPush(Answered, [], call);
    SelectPush(Answered, [], result);
    SelectPush(Called, [call], result);
    SelectPush(Answered, [call], result);
    assert [] + [call] == [call] && [] + [result] == [result];
  }

  lemma {:induction false} NoTools(events: seq<Event>, seen: set<ItemId>)
    requires forall e :: e in events ==> !e.ToolResult? && !e.ToolCall?
    ensures ResultsFollowCalls(events, seen)
    decreases |events|
  {
    if events != [] {
      NoTools(events[1..], seen);
    }
  }

  lemma PairsOneMore(s: State, line: Line, later: seq<Line>, rest: seq<Event>)
    requires var seen := Step(s, line).0.emitted;
             && Select(Called, rest) == FirstMentions(Select(ToolItem, later), seen)
             && Select(Answered, rest) == Select(CompletedTool, later) && ResultsFollowCalls(rest, seen)
    ensures var events := Step(s, line).1 + rest;
            && Select(Called, events)
               == FirstMentions((match ToolItem(line) case Some(id) => [id] case None => [])
                 + Select(ToolItem, later), s.emitted)
            && Select(Answered, events)
               == (match CompletedTool(line) case Some(id) => [id] case None => []) + Select(CompletedTool, later)
            && ResultsFollowCalls(events, s.emitted)
  {
    var (n, events) := Step(s, line);
    StepPairs(s, line);
    SelectAppend(Called, events, rest);
    SelectAppend(Answered, events, rest);
    OneMoreMention(ToolItem(line), Select(ToolItem, later), s.emitted);
    assert n.emitted == s.emitted + IdSet(Select(Called, events));
    ResultsFollowAppend(events, rest, s.emitted);
  }

  lemma {:induction false} TranscriptPairs(s: State, lines: seq<Line>)
    ensures Select(Called, Transcript(s, lines)) == FirstMentions(Select(ToolItem, lines), s.emitted)
    ensures Select(Answered, Transcript(s, lines)) == Select(CompletedTool, lines)
    ensures ResultsFollowCalls(Transcript(s, lines), s.emitted)
    decreases |lines|
  {
    if lines != [] {
      var (n, events) := Step(s, lines[0]);
      TranscriptPairs(n, lines[1..]);
      PairsOneMore(s, lines[0], lines[1..], Transcript(n, lines[1..]));
    }
  }

  lemma OneMoreMention(tool: Option<ItemId>, later: seq<ItemId>, seen: set<ItemId>)
    ensures FirstMentions((match tool case Some(id) => [id] case None => []) + later, seen)
            == (if tool.Some? && tool.value !in seen then [tool.value] else [])
               + FirstMentions(later, if tool.Some? then seen + {tool.value} else seen)
  {
    if tool.Some? {
      assert ([tool.value] + later)[1..] == later;
    } else {
      assert [] + later == later;
    }
  }

  /**
    Over any lines: the calls are exactly the tool items mentioned, each at its first mention and no id twice; the
    results are exactly the completed tool items in order; and each result comes after the call with its id.
  */
  lemma CallsAndResultsPair(lines: seq<Line>)
    ensures var events := Transcript(FRESH, lines); var calls := Select(Called, events);
            && calls == FirstMentions(Select(ToolItem, lines), {})
            && (forall i, j :: 0 <= i < j < |calls| ==> calls[i] != calls[j])
            && Select(Answered, events) == Select(CompletedTool, lines)
            && forall k :: 0 <= k < |events| && events[k].ToolResult? ==>
                 exists i :: 0 <= i < k && Called(events[i]) == Some(events[k].id)
  {
    var events := Transcript(FRESH, lines);
    TranscriptPairs(FRESH, lines);
    forall k | 0 <= k < |events| && events[k].ToolResult?
      ensures exists i :: 0 <= i < k && Called(events[i]) == Some(events[k].id)
    {
      var _ := CallBefore(events, {}, k);
    }
  }

  lemma {:induction false} CallBefore(events: seq<Event>, seen: set<ItemId>, k: nat) returns (i: nat)
    requires ResultsFollowCalls(events, seen) && k < |events| && events[k].ToolResult?
    ensures events[k].id in seen || (i < k && Called(events[i]) == Some(events[k].id))
    decreases k
  {
    i := 0;
    if k > 0 {
      var next := if events[0].ToolCall? then seen + {events[0].id} else seen;
      i := CallBefore(events[1..], next, k - 1);
      if events[k].id in next {
        i := 0;
      } else {
        i := i + 1;
      }
    }
  }
}

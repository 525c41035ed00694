/** What the codex adapter reports of a line, read off the lines before it instead of the parser's state. */
module CodexHistory {
  import opened CodexAdapter
  import opened Wrappers

  function TurnsIn(lines: seq<Line>): nat {
    if lines == [] then 0
    else
      var n := |lines| - 1;
      TurnsIn(lines[..n]) + if lines[n].Json? && lines[n].kind == TurnStarted then 1 else 0
  }

  /** The last model any of the lines names. */
  function ModelIn(lines: seq<Line>): Option<string> {
    if lines == [] then None
    else
      var n := |lines| - 1;
      if lines[n].Json? && lines[n].model.Some? then lines[n].model else ModelIn(lines[..n])
  }

  /** The item a line announces, started or completed. */
  function ItemOf(line: Line): Option<Item> {
    if line.Json? && (line.kind.ItemStarted? || line.kind.ItemCompleted?) then line.kind.item else None
  }

  /** Some line announces a tool item with this id. */
  predicate Announced(lines: seq<Line>, id: ItemId) {
    exists i ::
      && 0 <= i < |lines| && ItemOf(lines[i]).Some? && ItemOf(lines[i]).value.id == Some(id)
      && ItemOf(lines[i]).value.kind !in ["reasoning", "agent_message"]
  }

  /** Its output, failing that its text, failing that nothing. */
  function ResultText(item: Item): string {
    match (item.output, item.text)
    case (Some(output), _) => output
    case (None, Some(text)) => text
    case (None, None) => ""
  }

  function ReportedItem(before: seq<Line>, item: Item, completed: bool): seq<Event> {
    match item.id
    case None => []
    case Some(id) =>
      if item.kind == "reasoning" then []
      else if item.kind == "agent_message" then
        if completed then [AgentOutput(match item.text case Some(text) => text case None => "")] else []
      else
        (if Announced(before, id) then [] else [ToolCall(id, item.kind, item.input)])
        + if completed then [ToolResult(id, ResultText(item))] else []
  }

  /** What is reported of `line` after the lines `before`. */
  function Reported(before: seq<Line>, line: Line): seq<Event> {
    match line
    case Blank => []
    case NotJson(text) => [Output(text)]
    case Json(text, _, kind) =>
      var turn, model := TurnsIn(before), ModelIn(before + [line]);
      match kind
      case TurnStarted => [TurnStart(turn + 1)]
      case TurnCompleted(None) => [TurnEnd(turn, model)]
      case TurnCompleted(Some(u)) =>
        [TurnEnd(turn, model), ModelUsage(u.input, u.output + u.reasoning, u.cached, model)]
      case ItemStarted(item) => if item.Some? then ReportedItem(before, item.value, false) else []
      case ItemCompleted(item) => if item.Some? then ReportedItem(before, item.value, true) else []
      case OtherKind => [Output(text)]
  }

  function Reading(before: seq<Line>, lines: seq<Line>): seq<Event>
    decreases |lines|
  {
    if lines == [] then [] else Reported(before, lines[0]) + Reading(before + [lines[0]], lines[1..])
  }

  /** The parser's state is what the lines so far say. */
  ghost predicate Knows(s: State, before: seq<Line>) {
    && s.turnCounter == TurnsIn(before) && s.lastModel == ModelIn(before)
    && forall id :: id in s.emitted <==> Announced(before, id)
  }

  lemma OneMore(before: seq<Line>, line: Line)
    ensures var now := before + [line];
            && TurnsIn(now) == TurnsIn(before) + (if line.Json? && line.kind == TurnStarted then 1 else 0)
            && ModelIn(now) == (if line.Json? && line.model.Some? then line.model else ModelIn(before))
  {
    assert (before + [line])[..|before|] == before;
  }

  lemma AnnouncedMore(before: seq<Line>, line: Line, id: ItemId)
    ensures Announced(before + [line], id)
            <==> Announced(before, id)
                 || (ItemOf(line).Some? && ItemOf(line).value.id == Some(id)
                     && ItemOf(line).value.kind !in ["reasoning", "agent_message"])
  {
    var now := before + [line];
    assert now[|before|] == line && forall i :: 0 <= i < |before| ==> now[i] == before[i];
  }

  lemma StepEmits(s: State, line: Line, id: ItemId)
    ensures id in Step(s, line).0.emitted
            <==> id in s.emitted
                 || (ItemOf(line).Some? && ItemOf(line).value.id == Some(id)
                     && ItemOf(line).value.kind !in ["reasoning", "agent_message"])
  {
  }

  lemma StepCounts(s: State, line: Line)
    ensures var n := Step(s, line).0;
            && n.turnCounter == s.turnCounter + (if line.Json? && line.kind == TurnStarted then 1 else 0)
            && n.lastModel == (if line.Json? && line.model.Some? then line.model else s.lastModel)
  {
  }

  lemma StepKnows(s: State, before: seq<Line>, line: Line)
    requires Knows(s, before)
    ensures Knows(Step(s, line).0, before + [line])
  {
    OneMore(before, line);
    StepCounts(s, line);
    forall id ensures id in Step(s, line).0.emitted <==> Announced(before + [line], id) {
      AnnouncedMore(before, line, id);
      StepEmits(s, line, id);
    }
  }

  lemma ItemReads(s: State, before: seq<Line>, item: Item, completed: bool)
    requires forall id :: id in s.emitted <==> Announced(before, id)
    ensures StepItem(s, item, completed).1 == ReportedItem(before, item, completed)
  {
  }

  lemma StepReads(s: State, before: seq<Line>, line: Line)
    requires Knows(s, before)
    ensures Step(s, line).1 == Reported(before, line)
  {
    OneMore(before, line);
    if ItemOf(line).Some? {
      var named := if line.model.Some? then s.(lastModel := line.model) else s;
      ItemReads(named, before, ItemOf(line).value, line.kind.ItemCompleted?);
    }
  }

  lemma {:induction false} TranscriptReads(s: State, before: seq<Line>, lines: seq<Line>)
    requires Knows(s, before)
    ensures Transcript(s, lines) == Reading(before, lines)
    decreases |lines|
  {
    if lines != [] {
      StepReads(s, before, lines[0]);
      StepKnows(s, before, lines[0]);
      TranscriptReads(Step(s, lines[0]).0, before + [lines[0]], lines[1..]);
    }
  }

  /**
    Over any lines the parser reports of each what the lines before it call for: turns numbered from one, the model last
    named, a call for a tool item not announced before, its result's text, and the counts of a turn's usage.
  */
  lemma TranscriptIsReading(lines: seq<Line>)
    ensures Transcript(FRESH, lines) == Reading([], lines)
  {
    TranscriptReads(FRESH, [], lines);
  }
}

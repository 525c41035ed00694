/** What the pi adapter reports of a line, read off the lines before it instead of the parser's state. */
module PiHistory {
  import opened PiAdapter
  import opened Sequences

  function TurnsIn(lines: seq<Line>): nat {
    if lines == [] then 0
    else TurnsIn(lines[..|lines| - 1]) + if lines[|lines| - 1].TurnStarted? then 1 else 0
  }

  /** What is reported of `line` after the lines `before`. */
  function Reported(before: seq<Line>, line: Line): seq<Event> {
    match line
    case Blank => []
    case Internal => []
    case NotJson(text) => [Output(text)]
    case Operational(text) => [Output(text)]
    case TurnStarted => [TurnStart(TurnsIn(before) + 1)]
    case ToolStarted(id, name, args) => if id.Some? && name.Some? then [ToolCall(id.value, name.value, args)] else []
    case ToolEnded(id, content, isError) => if id.Some? then [ToolResult(id.value, content, isError)] else []
    case TurnEnded(model, stopReason, usage) =>
      [TurnEnd(TurnsIn(before), model, stopReason)] + if usage.Some? then [TurnUsage(usage.value, model)] else []
    case AgentEnded => [SessionUsage(Sum(Select(LineUsage, before)))]
  }

  function Reading(before: seq<Line>, lines: seq<Line>): seq<Event>
    decreases |lines|
  {
    if lines == [] then [] else Reported(before, lines[0]) + Reading(before + [lines[0]], lines[1..])
  }

  /** The parser's state is what the lines so far say. */
  predicate Knows(s: State, before: seq<Line>) {
    s.turnCounter == TurnsIn(before) && s.totals == Sum(Select(LineUsage, before))
  }

  lemma StepReads(s: State, before: seq<Line>, line: Line)
    requires Knows(s, before)
    ensures Step(s, line).1 == Reported(before, line)
  {
  }

  lemma StepKnows(s: State, before: seq<Line>, line: Line)
    requires Knows(s, before)
    ensures Knows(Step(s, line).0, before + [line])
  {
    assert (before + [line])[..|before|] == before;
    SelectPush(LineUsage, before, line);
    if LineUsage(line).Some? {
      SumPush(Select(LineUsage, before), line.usage.value, line.model);
    }
  }

  lemma {:induction false} TranscriptReads(s: State, before: seq<Line>, lines: seq<Line>)
    requires Knows(s, before)
    ensures Transcript(s, lines) == Reading(before, lines)
    decreases |lines|
  {
    if lines != [] {
      StepReads(s, before, lines[0]);
      StepKnows(s, before, lines[0]);
      TranscriptReads(Step(s, lines[0]).0, before + [lines[0]], lines[1..]);
    }
  }

  /**
    Over any lines the parser reports of each what the lines before it call for: turns numbered from one, calls and
    results as they come, a turn's usage, and for the session the sum of all usages so far.
  */
  lemma TranscriptIsReading(lines: seq<Line>)
    ensures Transcript(FRESH, lines) == Reading([], lines)
  {
    TranscriptReads(FRESH, [], lines);
  }
}

/** What the aider adapter reports of a line, read off the lines before it instead of the parser's state. */
module AiderHistory {
  import opened AiderAdapter
  import opened Wrappers

  /** The last model any of the lines names. */
  function ModelIn(lines: seq<Line>): Option<string> {
    if lines == [] then None
    else
      var n := |lines| - 1;
      if lines[n].MainModel? && lines[n].model.Some? then lines[n].model else ModelIn(lines[..n])
  }

  function PromptsIn(lines: seq<Line>): nat {
    if lines == [] then 0 else PromptsIn(lines[..|lines| - 1]) + if lines[|lines| - 1].Prompt? then 1 else 0
  }

  /** The token line that is the last line but for blank ones, if it is one. */
  function OpenTokens(lines: seq<Line>): Option<(nat, nat)> {
    if lines == [] then None
    else
      match lines[|lines| - 1]
      case Blank => OpenTokens(lines[..|lines| - 1])
      case Tokens(input, output) => Some((input, output))
      case _ => None
  }

  /** Whether a line brings out the usage of the token line before it. */
  function BringsUsage(before: seq<Line>, line: Line): bool {
    OpenTokens(before).Some? && !line.Blank? && (line.Cost? ==> line.amount.Some?)
  }

  /** A prompt came and no usage was brought out since. */
  function TurnOpen(lines: seq<Line>): bool {
    lines != []
    && var n := |lines| - 1;
       lines[n].Prompt? || (!BringsUsage(lines[..n], lines[n]) && TurnOpen(lines[..n]))
  }

  /** A usage ends the turn, if one is open, and is reported with the cost, if it comes with one. */
  function UsageReport(before: seq<Line>, cost: Option<real>): seq<Event>
    requires OpenTokens(before).Some?
  {
    var (input, output) := OpenTokens(before).value;
    EndReport(before) + [ModelUsage(Usage(input, output, cost, ModelIn(before)))]
  }

  function EndReport(before: seq<Line>): seq<Event> {
    if TurnOpen(before) then [TurnEnd(PromptsIn(before), ModelIn(before))] else []
  }

  /** What ends before `line`: the usage of the token line before it, with the line's cost, and with it the turn. */
  function Ending(before: seq<Line>, line: Line): seq<Event> {
    if !BringsUsage(before, line) then []
    else UsageReport(before, if line.Cost? then line.amount else None)
  }

  /** What is reported of `line` after the lines `before`. */
  function Reported(before: seq<Line>, line: Line): seq<Event> {
    match line
    case Blank => []
    case Tokens(_, _) => Ending(before, line)
    case Cost(_, text) => if BringsUsage(before, line) then Ending(before, line) else [Output(text)]
    case MainModel(_, text) => Ending(before, line) + [Output(text)]
    case Other(text) => Ending(before, line) + [Output(text)]
    case Prompt(text) =>
      Ending(before, line) + (if BringsUsage(before, line) then [] else EndReport(before))
      + [TurnStart(PromptsIn(before) + 1), Output(text)]
  }

  /** What is reported at the end of the stream. */
  function ReportedAtEnd(lines: seq<Line>): seq<Event> {
    if OpenTokens(lines).Some? then UsageReport(lines, None) else EndReport(lines)
  }

  function Reading(before: seq<Line>, lines: seq<Line>): seq<Event>
    decreases |lines|
  {
    if lines == [] then ReportedAtEnd(before) else Reported(before, lines[0]) + Reading(before + [lines[0]], lines[1..])
  }

  /** The parser's state is what the lines so far say. */
  predicate Knows(s: State, before: seq<Line>) {
    && s.turnCounter == PromptsIn(before) && s.lastModel == ModelIn(before) && s.inTurn == TurnOpen(before)
    && s.pending == match OpenTokens(before) case Some(t) => Some(Pending(t.0, t.1)) case None => None
  }

  lemma StepReads(s: State, before: seq<Line>, line: Line)
    requires Knows(s, before)
    ensures Step(s, line).1 == Reported(before, line)
  {
  }

  lemma StepKnows(s: State, before: seq<Line>, line: Line)
    requires Knows(s, before)
    ensures Knows(Step(s, line).0, before + [line])
  {
    assert (before + [line])[..|before|] == before;
  }

  lemma FlushReads(s: State, before: seq<Line>)
    requires Knows(s, before)
    ensures Flush(s).1 == ReportedAtEnd(before)
  {
  }

  lemma {:induction false} TranscriptReads(s: State, before: seq<Line>, lines: seq<Line>)
    requires Knows(s, before)
    ensures Transcript(s, lines) == Reading(before, lines)
    decreases |lines|
  {
    if lines == [] {
      FlushReads(s, before);
    } else {
      StepReads(s, before, lines[0]);
      StepKnows(s, before, lines[0]);
      TranscriptReads(Step(s, lines[0]).0, before + [lines[0]], lines[1..]);
    }
  }

  /**
    Over any lines the parser reports of each what the lines before it call for: what ends comes before what begins, a
    turn's end names the model last named and comes before its usage, and a line's text comes last.
  */
  lemma TranscriptIsReading(lines: seq<Line>)
    ensures Transcript(FRESH, lines) == Reading([], lines)
  {
    TranscriptReads(FRESH, [], lines);
  }
}

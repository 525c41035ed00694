/**
  The pi adapter: numbers turns, reports usage per turn and, when the agent ends, for the session so far.
  JSON lines come as typed values; amounts are exact.
*/
module PiAdapter {
  import opened Sequences
  import opened Wrappers

  datatype Amounts = Amounts(input: nat, output: nat, cacheRead: nat, cacheWrite: nat, cost: Option<real>)

  datatype Line =
    | Blank
    | NotJson(text: string)
    | TurnStarted
    | ToolStarted(id: Option<string>, name: Option<string>, args: string)
    | ToolEnded(id: Option<string>, content: string, isError: bool)
    | TurnEnded(model: Option<string>, stopReason: Option<string>, usage: Option<Amounts>)
    | AgentEnded
    | Operational(text: string)
    | Internal

  datatype Totals = Totals(input: nat, output: nat, cacheRead: nat, cacheWrite: nat, cost: real, model: Option<string>)

  /** `TurnUsage` and `SessionUsage` are the two uses of the event `model_usage`. */
  datatype Event =
    | Output(text: string)
    | TurnStart(turn: nat)
    | TurnEnd(turn: nat, model: Option<string>, stopReason: Option<string>)
    | ToolCall(id: string, name: string, args: string)
    | ToolResult(id: string, content: string, isError: bool)
    | TurnUsage(amounts: Amounts, model: Option<string>)
    | SessionUsage(totals: Totals)

  datatype State = State(turnCounter: nat, totals: Totals)

  const NOTHING := Totals(0, 0, 0, 0, 0.0, None)

  const FRESH := State(0, NOTHING)

  // ---------- One line, as a function ----------

  function CostOf(u: Amounts): real {
    if u.cost.Some? then u.cost.value else 0.0
  }

  function Add(t: Totals, u: Amounts, model: Option<string>): Totals {
    Totals(t.input + u.input, t.output + u.output, t.cacheRead + u.cacheRead, t.cacheWrite + u.cacheWrite,
           t.cost + CostOf(u), if model.Some? then model else t.model)
  }

  function Step(s: State, line: Line): (State, seq<Event>) {
    match line
    case NotJson(text) => (s, [Output(text)])
    case TurnStarted => (s.(turnCounter := s.turnCounter + 1), [TurnStart(s.turnCounter + 1)])
    case ToolStarted(Some(id), Some(name), args) => (s, [ToolCall(id, name, args)])
    case ToolEnded(Some(id), content, isError) => (s, [ToolResult(id, content, isError)])
    case TurnEnded(model, stopReason, None) => (s, [TurnEnd(s.turnCounter, model, stopReason)])
    case TurnEnded(model, stopReason, Some(u)) =>
      (s.(totals := Add(s.totals, u, model)), [TurnEnd(s.turnCounter, model, stopReason), TurnUsage(u, model)])
    case AgentEnded => (s, [SessionUsage(s.totals)])
    case Operational(text) => (s, [Output(text)])
    case _ => (s, [])
  }

  function Transcript(s: State, lines: seq<Line>): seq<Event>
    decreases |lines|
  {
    if lines == [] then []
    else
      var (next, events) := Step(s, lines[0]);
      events + Transcript(next, lines[1..])
  }

  // ---------- The parser itself ----------

  class PiParser {
    var turnCounter: nat
    var accumulator: Totals

    ghost function Abs(): State
      reads this
    {
      State(turnCounter, accumulator)
    }

    constructor ()
      ensures Abs() == FRESH
    {
      turnCounter, accumulator := 0, NOTHING;
    }

    method ParseTurnEnd(model: Option<string>, stopReason: Option<string>, usage: Option<Amounts>)
      returns (events: seq<Event>)
      modifies this`accumulator
      ensures (Abs(), events) == Step(old(Abs()), TurnEnded(model, stopReason, usage))
    {
      events := [TurnEnd(turnCounter, model, stopReason)];
      if usage.Some? {
        var u := usage.value;
        accumulator := accumulator.(input := accumulator.input + u.input, output := accumulator.output + u.output,
                                    cacheRead := accumulator.cacheRead + u.cacheRead,
                                    cacheWrite := accumulator.cacheWrite + u.cacheWrite);
        if u.cost.Some? {
          accumulator := accumulator.(cost := accumulator.cost + u.cost.value);
        }
        if model.Some? {
          accumulator := accumulator.(model := model);
        }
        events := events + [TurnUsage(u, model)];
        assert events == [TurnEnd(turnCounter, model, stopReason), TurnUsage(u, model)];
      }
    }

    method ParseLine(line: Line) returns (events: seq<Event>)
      modifies this
      ensures (Abs(), events) == Step(old(Abs()), line)
    {
      match line
      case NotJson(text) => events := [Output(text)];
      case TurnStarted =>
        turnCounter := turnCounter + 1;
        events := [TurnStart(turnCounter)];
      case ToolStarted(Some(id), Some(name), args) => events := [ToolCall(id, name, args)];
      case ToolEnded(Some(id), content, isError) => events := [ToolResult(id, content, isError)];
      case TurnEnded(model, stopReason, usage) => events := ParseTurnEnd(model, stopReason, usage);
      case AgentEnded => events := [SessionUsage(accumulator)];
      case Operational(text) => events := [Output(text)];
      case _ => events := [];
    }
  }

  // ---------- Session totals ----------

  function UsageOf(e: Event): Option<(Amounts, Option<string>)> {
    if e.TurnUsage? then Some((e.amounts, e.model)) else None
  }

  function InputTokens(u: Amounts): nat { u.input }
  function OutputTokens(u: Amounts): nat { u.output }
  function CacheRead(u: Amounts): nat { u.cacheRead }
  function CacheWrite(u: Amounts): nat { u.cacheWrite }

  function Total(amount: Amounts -> nat, usages: seq<(Amounts, Option<string>)>): nat {
    if usages == [] then 0 else Total(amount, usages[..|usages| - 1]) + amount(usages[|usages| - 1].0)
  }

  /** Turns without a cost count as free. */
  function TotalCost(usages: seq<(Amounts, Option<string>)>): real {
    if usages == [] then 0.0
    else
      TotalCost(usages[..|usages| - 1])
      + match usages[|usages| - 1].0.cost case Some(c) => c case None => 0.0
  }

  function LastModel(usages: seq<(Amounts, Option<string>)>): Option<string> {
    if usages == [] then None
    else if usages[|usages| - 1].1.Some? then usages[|usages| - 1].1
    else LastModel(usages[..|usages| - 1])
  }

  /** The sum of some turns' usages, amount by amount; the model is the last one named. */
  function Sum(usages: seq<(Amounts, Option<string>)>): Totals {
    Totals(Total(InputTokens, usages), Total(OutputTokens, usages), Total(CacheRead, usages), Total(CacheWrite, usages),
           TotalCost(usages), LastModel(usages))
  }

  lemma SumPush(usages: seq<(Amounts, Option<string>)>, u: Amounts, model: Option<string>)
    ensures Sum(usages + [(u, model)]) == Add(Sum(usages), u, model)
  {
    assert (usages + [(u, model)])[..|usages|] == usages;
  }

  /** Every session usage in `events` is the sum of the turn usages before it, those in `before` included. */
  ghost predicate SessionsAddUp(before: seq<(Amounts, Option<string>)>, events: seq<Event>) {
    forall k :: 0 <= k < |events| && events[k].SessionUsage?
      ==> events[k].totals == Sum(before + Select(UsageOf, events[..k]))
  }

  lemma StepAddsUp(s: State, line: Line, before: seq<(Amounts, Option<string>)>)
    requires s.totals == Sum(before)
    ensures var (n, events) := Step(s, line);
            n.totals == Sum(before + Select(UsageOf, events)) && SessionsAddUp(before, events)
  {
    var (n, events) := Step(s, line);
    assert before + [] == before;
    if line.TurnEnded? && line.usage.Some? {
      var usage := (line.usage.value, line.model);
      SelectOne(UsageOf, events[0]);
      SelectPush(UsageOf, [events[0]], events[1]);
      assert events == [events[0]] + [events[1]];
      SumPush(before, usage.0, usage.1);
    } else {
      SelectNothing(UsageOf, events);
      assert events != [] ==> events[..0] == [];
    }
  }

  lemma UsagesBefore(before: seq<(Amounts, Option<string>)>, a: seq<Event>, b: seq<Event>)
    ensures before + Select(UsageOf, a + b) == before + Select(UsageOf, a) + Select(UsageOf, b)
  {
    SelectAppend(UsageOf, a, b);
    AppendAssoc(before, Select(UsageOf, a), Select(UsageOf, b));
  }

  lemma Early<T>(a: seq<T>, b: seq<T>, k: nat)
    requires k < |a|
    ensures (a + b)[k] == a[k] && (a + b)[..k] == a[..k]
  {
  }

  lemma Late<T>(a: seq<T>, b: seq<T>, j: nat)
    requires j < |b|
    ensures (a + b)[|a| + j] == b[j] && (a + b)[..|a| + j] == a + b[..j]
  {
  }

  lemma SessionAt(before: seq<(Amounts, Option<string>)>, a: seq<Event>, b: seq<Event>, k: nat)
    requires SessionsAddUp(before, a) && SessionsAddUp(before + Select(UsageOf, a), b)
    requires k < |a + b| && (a + b)[k].SessionUsage?
    ensures (a + b)[k].totals == Sum(before + Select(UsageOf, (a + b)[..k]))
  {
    if k < |a| {
      Early(a, b, k);
    } else {
      var j := k - |a|;
      Late(a, b, j);
      UsagesBefore(before, a, b[..j]);
    }
  }

  lemma SessionsAppend(before: seq<(Amounts, Option<string>)>, a: seq<Event>, b: seq<Event>)
    requires SessionsAddUp(before, a) && SessionsAddUp(before + Select(UsageOf, a), b)
    ensures SessionsAddUp(before, a + b)
  {
    forall k | 0 <= k < |a + b| && (a + b)[k].SessionUsage?
      ensures (a + b)[k].totals == Sum(before + Select(UsageOf, (a + b)[..k]))
    {
      SessionAt(before, a, b, k);
    }
  }

  lemma {:induction false} TranscriptAddsUp(s: State, lines: seq<Line>, before: seq<(Amounts, Option<string>)>)
    requires s.totals == Sum(before)
    ensures SessionsAddUp(before, Transcript(s, lines))
    decreases |lines|
  {
    if lines != [] {
      var (n, events) := Step(s, lines[0]);
      StepAddsUp(s, lines[0], before);
      TranscriptAddsUp(n, lines[1..], before + Select(UsageOf, events));
      SessionsAppend(before, events, Transcript(n, lines[1..]));
    }
  }

  function LineUsage(line: Line): Option<(Amounts, Option<string>)> {
    if line.TurnEnded? && line.usage.Some? then Some((line.usage.value, line.model)) else None
  }

  lemma StepReports(s: State, line: Line)
    ensures Select(UsageOf, Step(s, line).1) == match LineUsage(line) case Some(u) => [u] case None => []
  {
    var events := Step(s, line).1;
    if LineUsage(line).Some? {
      SelectOne(UsageOf, events[0]);
      SelectPush(UsageOf, [events[0]], events[1]);
      assert events == [events[0]] + [events[1]];
    } else {
      SelectNothing(UsageOf, events);
    }
  }

  /** The turn usages reported are those of the lines, in order. */
  lemma {:induction false} UsagesAreReported(s: State, lines: seq<Line>)
    ensures Select(UsageOf, Transcript(s, lines)) == Select(LineUsage, lines)
    decreases |lines|
  {
    if lines != [] {
      var (n, events) := Step(s, lines[0]);
      StepReports(s, lines[0]);
      UsagesAreReported(n, lines[1..]);
      SelectAppend(UsageOf, events, Transcript(n, lines[1..]));
    }
  }

  /**
    Over any lines: whenever a session usage is reported, each of its amounts is the sum of all turn usages reported
    before it.
  */
  lemma SessionTotalsAreSums(lines: seq<Line>)
    ensures var events := Transcript(FRESH, lines);
            forall k :: 0 <= k < |events| && events[k].SessionUsage?
              ==> events[k].totals == Sum(Select(UsageOf, events[..k]))
  {
    var events := Transcript(FRESH, lines);
    TranscriptAddsUp(FRESH, lines, []);
    forall k | 0 <= k < |events| && events[k].SessionUsage?
      ensures events[k].totals == Sum(Select(UsageOf, events[..k]))
    {
      assert [] + Select(UsageOf, events[..k]) == Select(UsageOf, events[..k]);
    }
  }
}

/**
  The aider adapter: turns aider's line-shaped output into typed events. Lines come
  classified; amounts are exact.
*/
module AiderAdapter {
  import opened Sequences
  import opened Wrappers

  datatype Line =
    | Blank
    | MainModel(model: Option<string>, text: string)
    | Prompt(text: string)
    | Tokens(input: nat, output: nat)
    | Cost(amount: Option<real>, text: string)
    | Other(text: string)

  datatype Usage = Usage(input: nat, output: nat, cost: Option<real>, model: Option<string>)

  datatype Event =
    | Output(text: string)
    | TurnStart(id: nat)
    | TurnEnd(id: nat, model: Option<string>)
    | ModelUsage(usage: Usage)

  datatype Pending = Pending(input: nat, output: nat)

  datatype State = State(turnCounter: nat, inTurn: bool, lastModel: Option<string>, pending: Option<Pending>)

  const FRESH := State(0, false, None, None)

  // ---------- One line, as a function ----------

  function CloseTurn(s: State): seq<Event> {
    if s.inTurn then [TurnEnd(s.turnCounter, s.lastModel)] else []
  }

  function FlushPending(s: State): (State, seq<Event>) {
    if s.pending.None? then (s, [])
    else
      var p := s.pending.value;
      (s.(inTurn := false, pending := None), CloseTurn(s) + [ModelUsage(Usage(p.input, p.output, None, s.lastModel))])
  }

  function Step(s0: State, line: Line): (State, seq<Event>) {
    if line.Blank? then (s0, [])
    else if line.Cost? then
      // The pending usage is taken before it is known whether the cost could be read.
      var s := s0.(pending := None);
      if line.amount.Some? && s0.pending.Some? then
        var p := s0.pending.value;
        (s.(inTurn := false), CloseTurn(s) + [ModelUsage(Usage(p.input, p.output, line.amount, s.lastModel))])
      else (s, [Output(line.text)])
    else
      var (s, flushed) := FlushPending(s0);
      match line
      case MainModel(m, text) => (if m.Some? then s.(lastModel := m) else s, flushed + [Output(text)])
      case Prompt(text) =>
        var id := s.turnCounter + 1;
        (s.(turnCounter := id, inTurn := true), flushed + CloseTurn(s) + [TurnStart(id), Output(text)])
      case Tokens(i, o) => (s.(pending := Some(Pending(i, o))), flushed)
      case Other(text) => (s, flushed + [Output(text)])
  }

  function Flush(s0: State): (State, seq<Event>) {
    var (s, flushed) := FlushPending(s0);
    (s.(inTurn := false), flushed + CloseTurn(s))
  }

  /** All events of `lines` followed by the end of the stream. */
  function Transcript(s: State, lines: seq<Line>): seq<Event>
    decreases |lines|
  {
    if lines == [] then Flush(s).1
    else
      var (next, events) := Step(s, lines[0]);
      events + Transcript(next, lines[1..])
  }

  // ---------- The parser itself ----------

  class AiderParser {
    var turnCounter: nat
    var inTurn: bool
    var lastModel: Option<string>
    var pendingUsage: Option<Pending>

    ghost function Abs(): State
      reads this
    {
      State(turnCounter, inTurn, lastModel, pendingUsage)
    }

    constructor ()
      ensures Abs() == FRESH
    {
      turnCounter, inTurn, lastModel, pendingUsage := 0, false, None, None;
    }

    method TakeTurnEnd() returns (events: seq<Event>)
      modifies this`inTurn
      ensures events == CloseTurn(old(Abs())) && !inTurn
    {
      events := [];
      if inTurn {
        events := [TurnEnd(turnCounter, lastModel)];
        inTurn := false;
      }
    }

    method FlushPendingUsage() returns (events: seq<Event>)
      modifies this`inTurn, this`pendingUsage
      ensures (Abs(), events) == FlushPending(old(Abs()))
    {
      if pendingUsage.None? {
        return [];
      }
      var pending := pendingUsage.value;
      pendingUsage := None;
      events := TakeTurnEnd();
      events := events + [ModelUsage(Usage(pending.input, pending.output, None, lastModel))];
    }

    method ParseLine(line: Line) returns (events: seq<Event>)
      modifies this
      ensures (Abs(), events) == Step(old(Abs()), line)
    {
      events := [];
      if line.Blank? {
        return;
      }
      if !line.Cost? {
        events := FlushPendingUsage();
      }
      match line
      case MainModel(model, text) =>
        if model.Some? {
          lastModel := model;
        }
        events := events + [Output(text)];
      case Prompt(text) =>
        var ended := TakeTurnEnd();
        turnCounter := turnCounter + 1;
        inTurn := true;
        events := events + ended + [TurnStart(turnCounter), Output(text)];
      case Tokens(input, output) =>
        pendingUsage := Some(Pending(input, output));
      case Cost(amount, text) =>
        var pending := pendingUsage;
        pendingUsage := None;
        if amount.Some? && pending.Some? {
          events := TakeTurnEnd();
          events := events + [ModelUsage(Usage(pending.value.input, pending.value.output, amount, lastModel))];
        } else {
          events := [Output(text)];
        }
      case Other(text) =>
        events := events + [Output(text)];
    }

    method FlushAll() returns (events: seq<Event>)
      modifies this
      ensures (Abs(), events) == Flush(old(Abs()))
    {
      events := FlushPendingUsage();
      var ended := TakeTurnEnd();
      events := events + ended;
    }

    /** A whole stream: every line, then the end. */
    method ParseAll(lines: seq<Line>) returns (events: seq<Event>)
      modifies this
      ensures events == Transcript(old(Abs()), lines)
    {
      events := [];
      for i := 0 to |lines|
        invariant events + Transcript(Abs(), lines[i..]) == Transcript(old(Abs()), lines)
      {
        assert lines[i..][0] == lines[i] && lines[i..][1..] == lines[i + 1..];
        ghost var before := Abs();
        var more := ParseLine(lines[i]);
        assert Transcript(before, lines[i..]) == more + Transcript(Abs(), lines[i + 1..]);
        assert events + (more + Transcript(Abs(), lines[i + 1..]))
               == (events + more) + Transcript(Abs(), lines[i + 1..]);
        events := events + more;
      }
      assert lines[|lines|..] == [];
      var rest := FlushAll();
      events := events + rest;
    }
  }

  // ---------- Turns are bracketed ----------

  /** Reading events as brackets: the number of turns so far and whether one is open; `None` if they do not nest. */
  function Turns(events: seq<Event>, count: nat, open: bool): Option<(nat, bool)> {
    if events == [] then Some((count, open))
    else
      match events[0]
      case TurnStart(id) => if !open && id == count + 1 then Turns(events[1..], id, true) else None
      case TurnEnd(id, _) => if open && id == count then Turns(events[1..], count, false) else None
      case _ => Turns(events[1..], count, open)
  }

  lemma {:induction false} TurnsAppend(a: seq<Event>, b: seq<Event>, count: nat, open: bool)
    requires Turns(a, count, open).Some?
    ensures var (n, o) := Turns(a, count, open).value; Turns(a + b, count, open) == Turns(b, n, o)
  {
    if a == [] {
      assert a + b == b;
    } else {
      assert (a + b)[1..] == a[1..] + b;
      match a[0]
      case TurnStart(id) => TurnsAppend(a[1..], b, id, true);
      case TurnEnd(_, _) => TurnsAppend(a[1..], b, count, false);
      case Output(_) => TurnsAppend(a[1..], b, count, open);
      case ModelUsage(_) => TurnsAppend(a[1..], b, count, open);
    }
  }

  lemma TurnsOfOne(e: Event, count: nat, open: bool)
    ensures Turns([e], count, open)
            == match e
               case TurnStart(id) => if !open && id == count + 1 then Some((id, true)) else None
               case TurnEnd(id, _) => if open && id == count then Some((count, false)) else None
               case _ => Some((count, open))
  {
    assert [e][1..] == [];
  }

  lemma CloseTurnTurns(s: State)
    ensures Turns(CloseTurn(s), s.turnCounter, s.inTurn) == Some((s.turnCounter, false))
  {
    TurnsOfOne(TurnEnd(s.turnCounter, s.lastModel), s.turnCounter, s.inTurn);
  }

  lemma FlushPendingTurns(s: State)
    ensures var (n, events) := FlushPending(s);
            Turns(events, s.turnCounter, s.inTurn) == Some((n.turnCounter, n.inTurn))
  {
    if s.pending.Some? {
      var usage := ModelUsage(Usage(s.pending.value.input, s.pending.value.output, None, s.lastModel));
      CloseTurnTurns(s);
      TurnsOfOne(usage, s.turnCounter, false);
      TurnsAppend(CloseTurn(s), [usage], s.turnCounter, s.inTurn);
    }
  }

  lemma StepTurns(s: State, line: Line)
    ensures var (n, events) := Step(s, line);
            Turns(events, s.turnCounter, s.inTurn) == Some((n.turnCounter, n.inTurn))
  {
    match line
    case Blank =>
    case Cost(amount, text) =>
      if amount.Some? && s.pending.Some? {
        var usage := ModelUsage(Usage(s.pending.value.input, s.pending.value.output, amount, s.lastModel));
        CloseTurnTurns(s.(pending := None));
        TurnsOfOne(usage, s.turnCounter, false);
        TurnsAppend(CloseTurn(s), [usage], s.turnCounter, s.inTurn);
      } else {
        TurnsOfOne(Output(text), s.turnCounter, s.inTurn);
      }
    case Prompt(text) => PromptTurns(s, text);
    case Tokens(_, _) => FlushPendingTurns(s);
    case MainModel(_, text) => FlushedThenOutput(s, text);
    case Other(text) => FlushedThenOutput(s, text);
  }

  lemma FlushedThenOutput(s: State, text: string)
    ensures var (n, flushed) := FlushPending(s);
            Turns(flushed + [Output(text)], s.turnCounter, s.inTurn) == Some((n.turnCounter, n.inTurn))
  {
    var (n, flushed) := FlushPending(s);
    FlushPendingTurns(s);
    TurnsOfOne(Output(text), n.turnCounter, n.inTurn);
    TurnsAppend(flushed, [Output(text)], s.turnCounter, s.inTurn);
  }

  lemma PromptTurns(s: State, text: string)
    ensures var (n, events) := Step(s, Prompt(text));
            Turns(events, s.turnCounter, s.inTurn) == Some((n.turnCounter, n.inTurn))
  {
    var (m, flushed) := FlushPending(s);
    var opening := [TurnStart(m.turnCounter + 1), Output(text)];
    FlushPendingTurns(s);
    CloseTurnTurns(m);
    TurnsAppend(flushed, CloseTurn(m), s.turnCounter, s.inTurn);
    assert opening[1..] == [Output(text)];
    TurnsOfOne(Output(text), m.turnCounter + 1, true);
    assert Turns(opening, m.turnCounter, false) == Some((m.turnCounter + 1, true));
    TurnsAppend(flushed + CloseTurn(m), opening, s.turnCounter, s.inTurn);
  }

  lemma FlushTurns(s: State)
    ensures Turns(Flush(s).1, s.turnCounter, s.inTurn) == Some((s.turnCounter, false))
  {
    var (m, flushed) := FlushPending(s);
    FlushPendingTurns(s);
    CloseTurnTurns(m);
    TurnsAppend(flushed, CloseTurn(m), s.turnCounter, s.inTurn);
  }

  function PromptCount(lines: seq<Line>): nat {
    if lines == [] then 0 else (if lines[0].Prompt? then 1 else 0) + PromptCount(lines[1..])
  }

  lemma StepCounts(s: State, line: Line)
    ensures Step(s, line).0.turnCounter == s.turnCounter + if line.Prompt? then 1 else 0
  {
  }

  lemma {:induction false} TranscriptTurns(s: State, lines: seq<Line>)
    ensures Turns(Transcript(s, lines), s.turnCounter, s.inTurn) == Some((s.turnCounter + PromptCount(lines), false))
    decreases |lines|
  {
    if lines == [] {
      FlushTurns(s);
    } else {
      var (n, events) := Step(s, lines[0]);
      var rest := Transcript(n, lines[1..]);
      assert Transcript(s, lines) == events + rest;
      TranscriptTurns(n, lines[1..]);
      StepCounts(s, lines[0]);
      TurnsInSequence(s, n, lines[0], events, rest);
    }
  }

  lemma TurnsInSequence(s: State, n: State, line: Line, events: seq<Event>, rest: seq<Event>)
    requires Step(s, line) == (n, events)
    ensures Turns(events + rest, s.turnCounter, s.inTurn) == Turns(rest, n.turnCounter, n.inTurn)
  {
    StepTurns(s, line);
    TurnsAppend(events, rest, s.turnCounter, s.inTurn);
  }

  /** Over any lines: turns open and close without nesting, numbered from one, one per prompt, none left open. */
  lemma TurnsAreBracketed(lines: seq<Line>)
    ensures Turns(Transcript(FRESH, lines), 0, false) == Some((PromptCount(lines), false))
  {
    TranscriptTurns(FRESH, lines);
  }

  // ---------- Token counts are conserved ----------

  function UsageOf(e: Event): Option<Usage> {
    if e.ModelUsage? then Some(e.usage) else None
  }

  function Usages(events: seq<Event>): seq<Usage> {
    Select(UsageOf, events)
  }

  function NextNonBlank(lines: seq<Line>): Option<Line> {
    if lines == [] then None else if lines[0].Blank? then NextNonBlank(lines[1..]) else Some(lines[0])
  }

  /**
    What becomes of token counts when `later` follows: a usage with the cost that comes next, or without; nothing
    before an unreadable cost.
  */
  function Fate(p: Pending, later: seq<Line>, model: Option<string>): seq<Usage> {
    match NextNonBlank(later)
    case Some(Cost(None, _)) => []
    case Some(Cost(amount, _)) => [Usage(p.input, p.output, amount, model)]
    case _ => [Usage(p.input, p.output, None, model)]
  }

  /** The usages that `lines` call for, given the model named last. */
  function ExpectedUsages(lines: seq<Line>, model: Option<string>): seq<Usage> {
    if lines == [] then []
    else
      match lines[0]
      case Tokens(i, o) => Fate(Pending(i, o), lines[1..], model) + ExpectedUsages(lines[1..], model)
      case MainModel(m, _) => ExpectedUsages(lines[1..], if m.Some? then m else model)
      case _ => ExpectedUsages(lines[1..], model)
  }

  lemma CloseTurnUsages(s: State)
    ensures Usages(CloseTurn(s)) == []
  {
    SelectOne(UsageOf, TurnEnd(s.turnCounter, s.lastModel));
  }

  lemma FlushPendingUsages(s: State)
    ensures Usages(FlushPending(s).1)
            == if s.pending.None? then [] else [Usage(s.pending.value.input, s.pending.value.output, None, s.lastModel)]
  {
    if s.pending.Some? {
      var usage := ModelUsage(Usage(s.pending.value.input, s.pending.value.output, None, s.lastModel));
      CloseTurnUsages(s);
      SelectOne(UsageOf, usage);
      SelectAppend(UsageOf, CloseTurn(s), [usage]);
    }
  }

  lemma QuietTail(events: seq<Event>, tail: seq<Event>)
    requires Usages(tail) == []
    ensures Usages(events + tail) == Usages(events)
  {
    SelectAppend(UsageOf, events, tail);
  }

  lemma OpeningIsQuiet(id: nat, text: string)
    ensures Usages([Output(text)]) == [] && Usages([TurnStart(id), Output(text)]) == []
  {
    SelectOne(UsageOf, Output(text));
    assert [TurnStart(id), Output(text)] == [TurnStart(id)] + [Output(text)];
    SelectOne(UsageOf, TurnStart(id));
    SelectAppend(UsageOf, [TurnStart(id)], [Output(text)]);
  }

  /** The usage one line brings out: the pending one, with or without a cost. */
  lemma StepUsages(s: State, line: Line)
    ensures Usages(Step(s, line).1)
            == if s.pending.None? || line.Blank? || (line.Cost? && line.amount.None?) then []
               else
                 var cost := if line.Cost? then line.amount else None;
                 [Usage(s.pending.value.input, s.pending.value.output, cost, s.lastModel)]
  {
    var (m, flushed) := FlushPending(s);
    FlushPendingUsages(s);
    match line
    case Blank =>
    case Cost(amount, text) =>
      OpeningIsQuiet(0, text);
      if amount.Some? && s.pending.Some? {
        var usage := ModelUsage(Usage(s.pending.value.input, s.pending.value.output, amount, s.lastModel));
        CloseTurnUsages(s.(pending := None));
        SelectPush(UsageOf, CloseTurn(s), usage);
      }
    case Prompt(text) =>
      CloseTurnUsages(m);
      QuietTail(flushed, CloseTurn(m));
      OpeningIsQuiet(m.turnCounter + 1, text);
      QuietTail(flushed + CloseTurn(m), [TurnStart(m.turnCounter + 1), Output(text)]);
    case Tokens(_, _) =>
    case MainModel(_, text) =>
      OpeningIsQuiet(0, text);
      QuietTail(flushed, [Output(text)]);
    case Other(text) =>
      OpeningIsQuiet(0, text);
      QuietTail(flushed, [Output(text)]);
  }

  /** What the usage still pending in `s` becomes when `later` follows. */
  function PendingFate(s: State, later: seq<Line>): seq<Usage> {
    if s.pending.Some? then Fate(s.pending.value, later, s.lastModel) else []
  }

  /**
    The usage a line brings out, the one it leaves pending and those called for later: nothing is lost between them.
  */
  lemma OneLineConserves(s: State, line: Line, rest: seq<Line>, events: seq<Event>, n: State)
    requires Step(s, line) == (n, events)
    ensures Usages(events) + (PendingFate(n, rest) + ExpectedUsages(rest, n.lastModel))
            == PendingFate(s, [line] + rest) + ExpectedUsages([line] + rest, s.lastModel)
  {
    var lines := [line] + rest;
    assert lines[0] == line && lines[1..] == rest;
    StepUsages(s, line);
    var later := ExpectedUsages(rest, n.lastModel);
    if line.Blank? {
      assert NextNonBlank(lines) == NextNonBlank(rest);
      assert PendingFate(n, rest) == PendingFate(s, lines) && Usages(events) == [];
      assert [] + (PendingFate(n, rest) + later) == PendingFate(n, rest) + later;
    } else {
      assert NextNonBlank(lines) == Some(line);
      assert Usages(events) == PendingFate(s, lines);
      assert ExpectedUsages(lines, s.lastModel) == PendingFate(n, rest) + later;
    }
  }

  lemma {:induction false} TranscriptUsages(s: State, lines: seq<Line>)
    ensures Usages(Transcript(s, lines)) == PendingFate(s, lines) + ExpectedUsages(lines, s.lastModel)
    decreases |lines|
  {
    if lines == [] {
      var (m, flushed) := FlushPending(s);
      FlushPendingUsages(s);
      CloseTurnUsages(m);
      SelectAppend(UsageOf, flushed, CloseTurn(m));
    } else {
      var (n, events) := Step(s, lines[0]);
      var rest := Transcript(n, lines[1..]);
      assert Transcript(s, lines) == events + rest;
      TranscriptUsages(n, lines[1..]);
      SelectAppend(UsageOf, events, rest);
      assert lines == [lines[0]] + lines[1..];
      OneLineConserves(s, lines[0], lines[1..], events, n);
    }
  }

  /**
    Over any lines: each token line yields exactly one usage, in order and with its own counts, unless the
    next non-blank line is a cost line whose amount cannot be read.
  */
  lemma TokenCountsAreConserved(lines: seq<Line>)
    ensures Usages(Transcript(FRESH, lines)) == ExpectedUsages(lines, None)
  {
    TranscriptUsages(FRESH, lines);
  }

  // ---------- Every other line is passed on ----------

  function TextOf(e: Event): Option<string> {
    if e.Output? then Some(e.text) else None
  }

  function Outputs(events: seq<Event>): seq<string> {
    Select(TextOf, events)
  }

  /**
    Whether a line is shown, given the non-blank line before it: token lines and the costs that complete them are not.
  */
  predicate Shown(before: Option<Line>, line: Line) {
    match line
    case Blank => false
    case Tokens(_, _) => false
    case Cost(Some(_), _) => !(before.Some? && before.value.Tokens?)
    case _ => true
  }

  function ShownLines(before: Option<Line>, lines: seq<Line>): seq<string>
    decreases |lines|
  {
    if lines == [] then []
    else
      (if Shown(before, lines[0]) then [lines[0].text] else [])
      + ShownLines(if lines[0].Blank? then before else Some(lines[0]), lines[1..])
  }

  lemma UsageEventsShowNothing(s: State, usage: Usage)
    ensures Outputs(CloseTurn(s)) == [] && Outputs(CloseTurn(s) + [ModelUsage(usage)]) == []
            && Outputs(FlushPending(s).1) == []
  {
    SelectOne(TextOf, TurnEnd(s.turnCounter, s.lastModel));
    SelectOne(TextOf, ModelUsage(usage));
    SelectAppend(TextOf, CloseTurn(s), [ModelUsage(usage)]);
    if s.pending.Some? {
      var own := ModelUsage(Usage(s.pending.value.input, s.pending.value.output, None, s.lastModel));
      SelectOne(TextOf, own);
      SelectAppend(TextOf, CloseTurn(s), [own]);
    }
  }

  lemma PromptOutputs(m: State, flushed: seq<Event>, text: string)
    requires Outputs(flushed) == [] && Outputs(CloseTurn(m)) == []
    ensures Outputs(flushed + CloseTurn(m) + [TurnStart(m.turnCounter + 1), Output(text)]) == [text]
  {
    var opening := [TurnStart(m.turnCounter + 1), Output(text)];
    SelectAppend(TextOf, flushed, CloseTurn(m));
    assert opening[1..] == [Output(text)];
    SelectOne(TextOf, Output(text));
    SelectAppend(TextOf, flushed + CloseTurn(m), opening);
  }

  lemma LineOutputs(flushed: seq<Event>, text: string)
    requires Outputs(flushed) == []
    ensures Outputs(flushed + [Output(text)]) == [text] && Outputs([Output(text)]) == [text]
  {
    SelectOne(TextOf, Output(text));
    SelectAppend(TextOf, flushed, [Output(text)]);
  }

  lemma StepOutputs(s: State, before: Option<Line>, line: Line)
    requires s.pending.Some? <==> before.Some? && before.value.Tokens?
    ensures Outputs(Step(s, line).1) == if Shown(before, line) then [line.text] else []
  {
    var (m, flushed) := FlushPending(s);
    UsageEventsShowNothing(s, Usage(0, 0, None, None));
    UsageEventsShowNothing(m, Usage(0, 0, None, None));
    match line
    case Blank =>
    case Cost(amount, text) =>
      LineOutputs([], text);
      if amount.Some? && s.pending.Some? {
        UsageEventsShowNothing(s.(pending := None),
          Usage(s.pending.value.input, s.pending.value.output, amount, s.lastModel));
      }
    case Prompt(text) =>
      PromptOutputs(m, flushed, text);
    case Tokens(_, _) =>
    case MainModel(_, text) => LineOutputs(flushed, text);
    case Other(text) => LineOutputs(flushed, text);
  }

  lemma {:induction false} TranscriptOutputs(s: State, before: Option<Line>, lines: seq<Line>)
    requires s.pending.Some? <==> before.Some? && before.value.Tokens?
    ensures Outputs(Transcript(s, lines)) == ShownLines(before, lines)
    decreases |lines|
  {
    if lines == [] {
      var (m, flushed) := FlushPending(s);
      UsageEventsShowNothing(s, Usage(0, 0, None, None));
      UsageEventsShowNothing(m, Usage(0, 0, None, None));
      SelectAppend(TextOf, flushed, CloseTurn(m));
    } else {
      var (n, events) := Step(s, lines[0]);
      StepOutputs(s, before, lines[0]);
      TranscriptOutputs(n, if lines[0].Blank? then before else Some(lines[0]), lines[1..]);
      SelectAppend(TextOf, events, Transcript(n, lines[1..]));
    }
  }

  /**
    Over any lines: the raw outputs are the lines that are neither blank, nor token lines, nor the costs that complete
    one, in order.
  */
  lemma OtherLinesPassThrough(lines: seq<Line>)
    ensures Outputs(Transcript(FRESH, lines)) == ShownLines(None, lines)
  {
    TranscriptOutputs(FRESH, None, lines);
  }
}

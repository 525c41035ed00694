/**
  The supervisor: two readers send the agent's lines and then a done mark into one bounded channel (a line that
  cannot be read ends its stream like the end of the file), a select loop takes lines, denials and commands in
  whatever order they are ready, and the run ends with `run_ended`.

  `Handle` is one turn of the loop. `Next` is the whole system, one step of one party at a time; the lemmas
  speak about every run of it. The class `Supervisor` is the loop itself.
*/
module Supervision {
  import opened Sequences
  import opened Wrappers

  const CHANNEL_CAPACITY: nat := 256

  datatype OutputLine = Stdout(text: string) | Stderr(text: string) | Done

  datatype Command = Stop | Kill | Pause | Resume | Timeout

  datatype Signal = Terminate | KillNow | Suspend | Continue

  datatype Reason = Stopped | Killed | TimedOut | AgentExit

  /** How the run was supervised: as a child process with an exit code, or in a virtual machine. */
  datatype Exit = HostExit(code: Option<int>) | GuestExit

  datatype Event<E> =
    | Parsed(event: E)
    | StderrOutput(text: string)
    | Denial(target: string)
    | RunEnded(reason: Reason, exitCode: Option<int>)

  /** An adapter parser: its first state, one stdout line, and what it still holds at the end. */
  datatype Adapter<!S, !E> = Adapter(initial: S, parse: (S, string) -> (S, seq<E>), flush: S -> seq<E>)

  /** What the select loop was handed in one turn. */
  datatype Pick =
    | Output(line: OutputLine)
    | OutputClosed
    | Denied(target: string)
    | DenialsClosed
    | Commanded(command: Command)

  datatype Main<S, E> = Main(parser: S, events: seq<Event<E>>, doneCount: nat, broken: bool, denialsOpen: bool,
                             initiated: Option<Reason>, signals: seq<Signal>)

  // ---------- One turn ----------

  function ReasonOf(c: Command): Option<Reason> {
    match c
    case Kill => Some(Killed)
    case Stop => Some(Stopped)
    case Timeout => Some(TimedOut)
    case _ => None
  }

  function SignalOf(c: Command): Signal {
    match c
    case Stop => Terminate
    case Kill => KillNow
    case Timeout => KillNow
    case Pause => Suspend
    case Resume => Continue
  }

  function AllParsed<E>(es: seq<E>): seq<Event<E>> {
    seq(|es|, i requires 0 <= i < |es| => Parsed(es[i]))
  }

  function AllDenials<E>(ds: seq<string>): seq<Event<E>> {
    seq(|ds|, i requires 0 <= i < |ds| => Denial(ds[i]))
  }

  function Handle<S, E>(a: Adapter<S, E>, m: Main<S, E>, p: Pick): Main<S, E> {
    match p
    case Output(Stdout(text)) =>
      var (next, es) := a.parse(m.parser, text);
      m.(parser := next, events := m.events + AllParsed(es))
    case Output(Stderr(text)) => m.(events := m.events + [StderrOutput(text)])
    case Output(Done) => m.(doneCount := m.doneCount + 1, broken := m.doneCount + 1 >= 2)
    case OutputClosed => m.(broken := true)
    case Denied(d) => m.(events := m.events + [Denial(d)])
    case DenialsClosed => m.(denialsOpen := false)
    case Commanded(c) =>
      m.(initiated := if ReasonOf(c).Some? then ReasonOf(c) else m.initiated, signals := m.signals + [SignalOf(c)])
  }

  function FinalReason(initiated: Option<Reason>, exit: Exit): Reason {
    match initiated
    case Some(r) => r
    case None => if exit.HostExit? && exit.code.None? then Killed else AgentExit
  }

  function ExitCode(exit: Exit): Option<int> {
    if exit.HostExit? then exit.code else None
  }

  /** After the loop: denials still queued, what the parser held, and the end of the run. */
  function Ending<S, E>(a: Adapter<S, E>, m: Main<S, E>, queued: seq<string>, exit: Exit): seq<Event<E>> {
    AllDenials(queued) + AllParsed(a.flush(m.parser)) + [RunEnded(FinalReason(m.initiated, exit), ExitCode(exit))]
  }

  // ---------- The loop itself ----------

  function HandleAll<S, E>(a: Adapter<S, E>, m: Main<S, E>, picks: seq<Pick>): Main<S, E>
    decreases |picks|
  {
    if picks == [] || m.broken then m else HandleAll(a, Handle(a, m, picks[0]), picks[1..])
  }

  class Supervisor<S, E> {
    const adapter: Adapter<S, E>
    var parser: S
    var events: seq<Event<E>>
    var initiatedReason: Option<Reason>
    var signals: seq<Signal>

    constructor (adapter: Adapter<S, E>)
      ensures this.adapter == adapter && parser == adapter.initial
      ensures events == [] && initiatedReason == None && signals == []
    {
      this.adapter, parser := adapter, adapter.initial;
      events, initiatedReason, signals := [], None, [];
    }

    method EmitParsed(es: seq<E>)
      modifies this`events
      ensures events == old(events) + AllParsed(es)
    {
      for i := 0 to |es|
        invariant events == old(events) + AllParsed(es[..i])
      {
        events := events + [Parsed(es[i])];
        assert AllParsed(es[..i + 1]) == AllParsed(es[..i]) + [Parsed(es[i])];
      }
      assert es[..|es|] == es;
    }

    method Obey(command: Command)
      modifies this`initiatedReason, this`signals
      ensures initiatedReason == if ReasonOf(command).Some? then ReasonOf(command) else old(initiatedReason)
      ensures signals == old(signals) + [SignalOf(command)]
      ensures signals != [] && SentAs(command, signals[|signals| - 1])
      ensures if command == Pause || command == Resume then initiatedReason == old(initiatedReason)
              else initiatedReason.Some? && EndsAs(command, initiatedReason.value)
    {
      match command
      case Kill =>
        initiatedReason := Some(Killed);
        signals := signals + [KillNow];
      case Stop =>
        initiatedReason := Some(Stopped);
        signals := signals + [Terminate];
      case Timeout =>
        initiatedReason := Some(TimedOut);
        signals := signals + [KillNow];
      case Pause => signals := signals + [Suspend];
      case Resume => signals := signals + [Continue];
    }

    /** Handles `picks` in turn until the loop breaks, then drains `queued` and ends the run. */
    method Run(picks: seq<Pick>, queued: seq<string>, exit: Exit)
      modifies this
      ensures var first := Main(old(parser), old(events), 0, false, true, old(initiatedReason), old(signals));
              var last := HandleAll(adapter, first, picks);
              && events == last.events + Ending(adapter, last, queued, exit)
              && signals == last.signals
    {
      var doneCount, broken, denialsOpen, i := 0, false, true, 0;
      ghost var start := Main(parser, events, 0, false, true, initiatedReason, signals);
      assert picks[0..] == picks;
      while i < |picks| && !broken
        invariant 0 <= i <= |picks|
        invariant HandleAll(adapter, Main(parser, events, doneCount, broken, denialsOpen, initiatedReason, signals),
                  picks[i..])
               == HandleAll(adapter, start, picks)
      {
        assert picks[i..][0] == picks[i] && picks[i..][1..] == picks[i + 1..];
        match picks[i] {
          case Output(Stdout(text)) =>
            var (next, es) := adapter.parse(parser, text);
            parser := next;
            EmitParsed(es);
          case Output(Stderr(text)) => events := events + [StderrOutput(text)];
          case Output(Done) =>
            doneCount := doneCount + 1;
            if doneCount >= 2 {
              broken := true;
            }
          case OutputClosed => broken := true;
          case Denied(d) => events := events + [Denial(d)];
          case DenialsClosed => denialsOpen := false;
          case Commanded(c) => Obey(c);
        }
        i := i + 1;
      }
      ghost var last := Main(parser, events, doneCount, broken, denialsOpen, initiatedReason, signals);
      assert HandleAll(adapter, last, picks[i..]) == last;
      Finish(queued, exit);
    }

    /** Reports the denials still queued, flushes the parser and ends the run. */
    method Finish(queued: seq<string>, exit: Exit)
      modifies this`events
      ensures events == old(events) + (AllDenials(queued) + AllParsed(adapter.flush(parser))
                                       + [RunEnded(FinalReason(initiatedReason, exit), ExitCode(exit))])
    {
      for k := 0 to |queued|
        invariant events == old(events) + AllDenials(queued[..k])
      {
        events := events + [Denial(queued[k])];
        assert AllDenials<E>(queued[..k + 1]) == AllDenials(queued[..k]) + [Denial(queued[k])];
      }
      assert queued[..|queued|] == queued;
      EmitParsed(adapter.flush(parser));
      events := events + [RunEnded(FinalReason(initiatedReason, exit), ExitCode(exit))];
    }
  }

  // ---------- The whole system ----------

  /** One line as the agent wrote it, or a read that fails. */
  datatype RawLine = Raw(bytes: Bytes) | ReadError

  type Decoder = Bytes -> Option<string>

  function Decoded(utf8: Decoder, l: RawLine): Option<string> {
    match l
    case Raw(bytes) => utf8(bytes)
    case ReadError => None
  }

  /** The lines a reader gets out of a stream: those before the first it cannot read. */
  function Readable(utf8: Decoder, lines: seq<RawLine>): seq<string> {
    if lines == [] || Decoded(utf8, lines[0]).None? then []
    else [Decoded(utf8, lines[0]).value] + Readable(utf8, lines[1..])
  }

  predicate AllReadable(utf8: Decoder, lines: seq<RawLine>) {
    forall i :: 0 <= i < |lines| ==> Decoded(utf8, lines[i]).Some?
  }

  datatype Reader = Reader(left: seq<RawLine>, finished: bool)

  datatype System<S, E> = System(utf8: Decoder, out: Reader, err: Reader, queue: seq<OutputLine>, denials: seq<string>,
                                 main: Main<S, E>, picks: seq<Pick>, arrived: seq<string>)

  datatype Step =
    | OutSends | ErrSends
    | TakeLine | TakeClosed
    | DenialArrives(target: string) | TakeDenial | TakeDenialsClosed
    | TakeCommand(command: Command)

  function FirstMain<S, E>(a: Adapter<S, E>): Main<S, E> {
    Main(a.initial, [], 0, false, true, None, [])
  }

  function Start<S, E>(a: Adapter<S, E>, utf8: Decoder, out: seq<RawLine>, err: seq<RawLine>): System<S, E> {
    System(utf8, Reader(out, false), Reader(err, false), [], [], FirstMain(a), [], [])
  }

  function Picked<S, E>(a: Adapter<S, E>, s: System<S, E>, p: Pick): System<S, E> {
    s.(main := Handle(a, s.main, p), picks := s.picks + [p])
  }

  /** The next line of a reader, or its done mark after the last or at one it cannot read. */
  function Sends(utf8: Decoder, r: Reader, line: string -> OutputLine): (Reader, OutputLine) {
    if r.left == [] || Decoded(utf8, r.left[0]).None? then (r.(finished := true), Done)
    else (r.(left := r.left[1..]), line(Decoded(utf8, r.left[0]).value))
  }

  function AsOut(text: string): OutputLine { Stdout(text) }

  function AsErr(text: string): OutputLine { Stderr(text) }

  /** One step of one party; `None` when it is not its turn. */
  function Next<S, E>(a: Adapter<S, E>, s: System<S, E>, step: Step): Option<System<S, E>> {
    match step
    case OutSends =>
      if s.out.finished || |s.queue| >= CHANNEL_CAPACITY then None
      else
        var (r, line) := Sends(s.utf8, s.out, AsOut);
        Some(s.(out := r, queue := s.queue + [line]))
    case ErrSends =>
      if s.err.finished || |s.queue| >= CHANNEL_CAPACITY then None
      else
        var (r, line) := Sends(s.utf8, s.err, AsErr);
        Some(s.(err := r, queue := s.queue + [line]))
    case TakeLine =>
      if s.main.broken || s.queue == [] then None
      else Some(Picked(a, s, Output(s.queue[0])).(queue := s.queue[1..]))
    case TakeClosed =>
      if s.main.broken || s.queue != [] || !s.out.finished || !s.err.finished then None
      else Some(Picked(a, s, OutputClosed))
    case DenialArrives(d) =>
      if !s.main.denialsOpen then None else Some(s.(denials := s.denials + [d], arrived := s.arrived + [d]))
    case TakeDenial =>
      if s.main.broken || !s.main.denialsOpen || s.denials == [] then None
      else Some(Picked(a, s, Denied(s.denials[0])).(denials := s.denials[1..]))
    case TakeDenialsClosed =>
      if s.main.broken || !s.main.denialsOpen || s.denials != [] then None else Some(Picked(a, s, DenialsClosed))
    case TakeCommand(c) =>
      if s.main.broken then None else Some(Picked(a, s, Commanded(c)))
  }

  function After<S, E>(a: Adapter<S, E>, s: System<S, E>, steps: seq<Step>): Option<System<S, E>>
    decreases |steps|
  {
    if steps == [] then Some(s)
    else
      match Next(a, s, steps[0])
      case None => None
      case Some(next) => After(a, next, steps[1..])
  }

  // ---------- What was taken, and what was shown ----------

  function LineOf(p: Pick): Option<OutputLine> { if p.Output? then Some(p.line) else None }
  function CommandOf(p: Pick): Option<Command> { if p.Commanded? then Some(p.command) else None }

  function OutText(l: OutputLine): Option<string> { if l.Stdout? then Some(l.text) else None }
  function ErrText(l: OutputLine): Option<string> { if l.Stderr? then Some(l.text) else None }
  function DoneMark(l: OutputLine): Option<()> { if l.Done? then Some(()) else None }

  function ParsedEvent<E>(e: Event<E>): Option<E> { if e.Parsed? then Some(e.event) else None }
  function ShownText<E>(e: Event<E>): Option<string> { if e.StderrOutput? then Some(e.text) else None }
  function DenialTarget<E>(e: Event<E>): Option<string> { if e.Denial? then Some(e.target) else None }
  function EndMark<E>(e: Event<E>): Option<Reason> { if e.RunEnded? then Some(e.reason) else None }

  function Classified<L>(classify: string -> L, lines: seq<string>): seq<L> {
    seq(|lines|, i requires 0 <= i < |lines| => classify(lines[i]))
  }

  /** The adapter parser run over `lines` alone. */
  function RunParser<S, E>(a: Adapter<S, E>, s: S, lines: seq<string>): (S, seq<E>)
    decreases |lines|
  {
    if lines == [] then (s, [])
    else
      var (next, es) := a.parse(s, lines[0]);
      var (last, more) := RunParser(a, next, lines[1..]);
      (last, es + more)
  }

  function ParseAll<S, E>(a: Adapter<S, E>, lines: seq<string>): seq<E> {
    var (last, es) := RunParser(a, a.initial, lines);
    es + a.flush(last)
  }

  /** The reason a list of commands leaves behind: that of the last one that ends the run. */
  ghost predicate IsLastReason(commands: seq<Command>, r: Option<Reason>) {
    match r
    case None => forall c :: c in commands ==> ReasonOf(c).None?
    case Some(_) =>
      exists i ::
        && 0 <= i < |commands| && ReasonOf(commands[i]) == r
        && forall j :: i < j < |commands| ==> ReasonOf(commands[j]).None?
  }

  lemma LastReasonPush(commands: seq<Command>, r: Option<Reason>, c: Command)
    requires IsLastReason(commands, r)
    ensures IsLastReason(commands + [c], if ReasonOf(c).Some? then ReasonOf(c) else r)
  {
    var more := commands + [c];
    if ReasonOf(c).Some? {
      assert ReasonOf(more[|commands|]) == ReasonOf(c);
    } else if r.Some? {
      var i :|
        && 0 <= i < |commands| && ReasonOf(commands[i]) == r
        && forall j :: i < j < |commands| ==> ReasonOf(commands[j]).None?;
      assert ReasonOf(more[i]) == r;
    }
  }

  lemma {:induction false} RunParserPush<S, E>(a: Adapter<S, E>, s: S, lines: seq<string>, line: string)
    ensures var (last, es) := RunParser(a, s, lines);
            var (next, more) := a.parse(last, line);
            RunParser(a, s, lines + [line]) == (next, es + more)
    decreases |lines|
  {
    if lines == [] {
      var (next, more) := a.parse(s, line);
      assert [line][1..] == [] && RunParser(a, next, []) == (next, []);
      assert lines + [line] == [line] && more + [] == [] + more;
    } else {
      var (mid, es) := a.parse(s, lines[0]);
      var (last, later) := RunParser(a, mid, lines[1..]);
      RunParserPush(a, mid, lines[1..], line);
      assert (lines + [line])[1..] == lines[1..] + [line];
      AppendAssoc(es, later, a.parse(last, line).1);
    }
  }

  /** The events so far are exactly what the lines taken call for, stream by stream. */
  ghost predicate Accounts<S, E>(a: Adapter<S, E>, m: Main<S, E>, taken: seq<OutputLine>) {
    && (m.parser, Select(ParsedEvent, m.events)) == RunParser(a, a.initial, Select(OutText, taken))
    && Select(ShownText, m.events) == Select(ErrText, taken)
    && m.doneCount == |Select(DoneMark, taken)|
    && m.broken == (m.doneCount >= 2)
  }

  lemma ParsedShow<E>(es: seq<E>)
    ensures Select(ParsedEvent, AllParsed(es)) == es && Select(ShownText, AllParsed(es)) == []
    ensures Select(DenialTarget, AllParsed(es)) == [] && Select(EndMark, AllParsed(es)) == []
  {
    SelectAll(ParsedEvent, AllParsed(es), es);
    SelectNothing(ShownText, AllParsed(es));
    SelectNothing(DenialTarget, AllParsed(es));
    SelectNothing(EndMark, AllParsed(es));
  }

  lemma DenialsShow<E>(ds: seq<string>)
    ensures Select(DenialTarget<E>, AllDenials<E>(ds)) == ds && Select(ParsedEvent<E>, AllDenials<E>(ds)) == []
    ensures Select(ShownText<E>, AllDenials<E>(ds)) == [] && Select(EndMark<E>, AllDenials<E>(ds)) == []
  {
    SelectAll(DenialTarget<E>, AllDenials<E>(ds), ds);
    SelectNothing(ParsedEvent<E>, AllDenials<E>(ds));
    SelectNothing(ShownText<E>, AllDenials<E>(ds));
    SelectNothing(EndMark<E>, AllDenials<E>(ds));
  }

  lemma LineAccounts<S, E>(a: Adapter<S, E>, m: Main<S, E>, taken: seq<OutputLine>, l: OutputLine)
    requires Accounts(a, m, taken) && !m.broken
    ensures Accounts(a, Handle(a, m, Output(l)), taken + [l])
  {
    SelectPush(OutText, taken, l);
    SelectPush(ErrText, taken, l);
    SelectPush(DoneMark, taken, l);
    match l
    case Stdout(text) =>
      var es := a.parse(m.parser, text).1;
      RunParserPush(a, a.initial, Select(OutText, taken), text);
      ParsedShow(es);
      SelectAppend(ParsedEvent, m.events, AllParsed(es));
      SelectAppend(ShownText, m.events, AllParsed(es));
      assert Select(ShownText, m.events) + [] == Select(ShownText, m.events);
    case Stderr(text) =>
      SelectPush(ParsedEvent, m.events, StderrOutput(text));
      SelectPush(ShownText, m.events, StderrOutput(text));
    case Done =>
  }

  lemma OtherAccounts<S, E>(a: Adapter<S, E>, m: Main<S, E>, taken: seq<OutputLine>, p: Pick)
    requires Accounts(a, m, taken) && !p.Output? && !p.OutputClosed?
    ensures Accounts(a, Handle(a, m, p), taken)
  {
    if p.Denied? {
      SelectPush(ParsedEvent, m.events, Denial(p.target));
      SelectPush(ShownText, m.events, Denial(p.target));
    }
  }

  lemma HandleKeepsDenials<S, E>(a: Adapter<S, E>, m: Main<S, E>, p: Pick)
    ensures var next := Handle(a, m, p).events;
            Select(DenialTarget, next)
              == (if p.Denied? then Select(DenialTarget, m.events) + [p.target] else Select(DenialTarget, m.events))
            && Select(EndMark, next) == Select(EndMark, m.events)
  {
    match p
    case Output(Stdout(text)) =>
      var es := a.parse(m.parser, text).1;
      ParsedShow(es);
      SelectAppend(DenialTarget, m.events, AllParsed(es));
      SelectAppend(EndMark, m.events, AllParsed(es));
    case Output(Stderr(text)) =>
      SelectPush(DenialTarget, m.events, StderrOutput(text));
      SelectPush(EndMark, m.events, StderrOutput(text));
    case Denied(d) =>
      SelectPush(DenialTarget, m.events, Denial(d));
      SelectPush(EndMark, m.events, Denial(d));
    case _ =>
  }

  // ---------- Every reachable state ----------

  function SignalsOf(commands: seq<Command>): seq<Signal> {
    seq(|commands|, i requires 0 <= i < |commands| => SignalOf(commands[i]))
  }

  /** No line a reader can get is lost, repeated or overtaken within its stream. */
  ghost predicate Streams<S, E>(s: System<S, E>, taken: seq<OutputLine>, outLines: seq<string>, errLines: seq<string>) {
    && Select(OutText, taken + s.queue) + Readable(s.utf8, s.out.left) == outLines
    && Select(ErrText, taken + s.queue) + Readable(s.utf8, s.err.left) == errLines
  }

  /** One done mark per finished reader; once both have finished, a done mark is last. */
  ghost predicate Marks<S, E>(s: System<S, E>, taken: seq<OutputLine>) {
    var sent := taken + s.queue;
    && |Select(DoneMark, sent)| == (if s.out.finished then 1 else 0) + (if s.err.finished then 1 else 0)
    && (s.out.finished ==> Readable(s.utf8, s.out.left) == [])
    && (s.err.finished ==> Readable(s.utf8, s.err.left) == [])
    && (s.out.finished && s.err.finished ==> sent != [] && sent[|sent| - 1] == Done)
  }

  ghost predicate Obeyed<S, E>(m: Main<S, E>, commands: seq<Command>) {
    IsLastReason(commands, m.initiated) && m.signals == SignalsOf(commands)
  }

  ghost predicate DenialsKept<S, E>(s: System<S, E>) {
    Select(DenialTarget, s.main.events) + s.denials == s.arrived && Select(EndMark, s.main.events) == []
  }

  ghost predicate Inv<S, E>(a: Adapter<S, E>, outLines: seq<string>, errLines: seq<string>, s: System<S, E>) {
    var taken := Select(LineOf, s.picks);
    && Accounts(a, s.main, taken)
    && Streams(s, taken, outLines, errLines)
    && Marks(s, taken)
    && Obeyed(s.main, Select(CommandOf, s.picks))
    && DenialsKept(s)
    && HandleAll(a, FirstMain(a), s.picks) == s.main
  }

  lemma {:induction false} HandleAllPush<S, E>(a: Adapter<S, E>, m: Main<S, E>, picks: seq<Pick>, p: Pick)
    requires !HandleAll(a, m, picks).broken
    ensures HandleAll(a, m, picks + [p]) == Handle(a, HandleAll(a, m, picks), p)
    decreases |picks|
  {
    if picks == [] {
      assert [p][1..] == [] && picks + [p] == [p];
      assert HandleAll(a, m, [p]) == HandleAll(a, Handle(a, m, p), []);
    } else {
      assert (picks + [p])[1..] == picks[1..] + [p];
      HandleAllPush(a, Handle(a, m, picks[0]), picks[1..], p);
    }
  }

  lemma SentLine<S, E>(s: System<S, E>, taken: seq<OutputLine>, line: OutputLine)
    ensures var sent := taken + (s.queue + [line]);
            && sent != [] && sent[|sent| - 1] == line
            && Select(OutText, sent)
                  == (if line.Stdout? then Select(OutText, taken + s.queue) + [line.text]
                  else Select(OutText, taken + s.queue))
            && Select(ErrText, sent)
                  == (if line.Stderr? then Select(ErrText, taken + s.queue) + [line.text]
                  else Select(ErrText, taken + s.queue))
            && |Select(DoneMark, sent)| == |Select(DoneMark, taken + s.queue)| + if line.Done? then 1 else 0
  {
    AppendAssoc(taken, s.queue, [line]);
    SelectPush(OutText, taken + s.queue, line);
    SelectPush(ErrText, taken + s.queue, line);
    SelectPush(DoneMark, taken + s.queue, line);
  }

  lemma HeadMoves(got: seq<string>, left: seq<string>, all: seq<string>)
    requires got + left == all && left != []
    ensures got + [left[0]] + left[1..] == all
  {
  }

  /** A reader gets a prefix of its stream, and the line after it, if there is one, cannot be read. */
  lemma {:induction false} ReadableIsPrefix(utf8: Decoder, lines: seq<RawLine>)
    ensures var texts := Readable(utf8, lines);
            && |texts| <= |lines| && (forall i :: 0 <= i < |texts| ==> Decoded(utf8, lines[i]) == Some(texts[i]))
            && (|texts| < |lines| ==> Decoded(utf8, lines[|texts|]).None?)
  {
    if lines != [] && Decoded(utf8, lines[0]).Some? {
      ReadableIsPrefix(utf8, lines[1..]);
    }
  }

  lemma ReadableMoves(utf8: Decoder, got: seq<string>, left: seq<RawLine>, all: seq<string>)
    requires got + Readable(utf8, left) == all && left != [] && Decoded(utf8, left[0]).Some?
    ensures got + [Decoded(utf8, left[0]).value] + Readable(utf8, left[1..]) == all
  {
    AppendAssoc(got, [Decoded(utf8, left[0]).value], Readable(utf8, left[1..]));
  }

  lemma OutKeepsStreams<S, E>(a: Adapter<S, E>, outLines: seq<string>, errLines: seq<string>, s: System<S, E>,
                              taken: seq<OutputLine>)
    requires Streams(s, taken, outLines, errLines) && Marks(s, taken) && Next(a, s, OutSends).Some?
    ensures Streams(Next(a, s, OutSends).value, taken, outLines, errLines) && Marks(Next(a, s, OutSends).value, taken)
  {
    var line := Sends(s.utf8, s.out, AsOut).1;
    assert line == Done || line == Stdout(Decoded(s.utf8, s.out.left[0]).value);
    SentLine(s, taken, line);
    if line != Done {
      ReadableMoves(s.utf8, Select(OutText, taken + s.queue), s.out.left, outLines);
    }
  }

  lemma ErrKeepsStreams<S, E>(a: Adapter<S, E>, outLines: seq<string>, errLines: seq<string>, s: System<S, E>,
                              taken: seq<OutputLine>)
    requires Streams(s, taken, outLines, errLines) && Marks(s, taken) && Next(a, s, ErrSends).Some?
    ensures Streams(Next(a, s, ErrSends).value, taken, outLines, errLines) && Marks(Next(a, s, ErrSends).value, taken)
  {
    var line := Sends(s.utf8, s.err, AsErr).1;
    assert line == Done || line == Stderr(Decoded(s.utf8, s.err.left[0]).value);
    SentLine(s, taken, line);
    if line != Done {
      ReadableMoves(s.utf8, Select(ErrText, taken + s.queue), s.err.left, errLines);
    }
  }

  /** What readers and queue say of the streams depends on what was sent, not on how much of it was taken. */
  lemma SameStreams<S, E>(s: System<S, E>, t: System<S, E>, taken: seq<OutputLine>, takenNow: seq<OutputLine>,
                          outLines: seq<string>, errLines: seq<string>)
    requires Streams(s, taken, outLines, errLines) && Marks(s, taken)
    requires t.utf8 == s.utf8 && t.out == s.out && t.err == s.err && takenNow + t.queue == taken + s.queue
    ensures Streams(t, takenNow, outLines, errLines) && Marks(t, takenNow)
  {
  }

  lemma PickAccounts<S, E>(a: Adapter<S, E>, s: System<S, E>, p: Pick)
    requires Accounts(a, s.main, Select(LineOf, s.picks)) && !s.main.broken && !p.OutputClosed?
    ensures Select(LineOf, s.picks + [p]) == if p.Output? then Select(LineOf, s.picks) + [p.line]
            else Select(LineOf, s.picks)
    ensures Accounts(a, Handle(a, s.main, p), Select(LineOf, s.picks + [p]))
  {
    SelectPush(LineOf, s.picks, p);
    if p.Output? {
      LineAccounts(a, s.main, Select(LineOf, s.picks), p.line);
    } else {
      OtherAccounts(a, s.main, Select(LineOf, s.picks), p);
    }
  }

  lemma PickIsObeyed<S, E>(a: Adapter<S, E>, s: System<S, E>, p: Pick)
    requires Obeyed(s.main, Select(CommandOf, s.picks))
    ensures Obeyed(Handle(a, s.main, p), Select(CommandOf, s.picks + [p]))
  {
    var commands := Select(CommandOf, s.picks);
    SelectPush(CommandOf, s.picks, p);
    if p.Commanded? {
      LastReasonPush(commands, s.main.initiated, p.command);
      assert SignalsOf(commands + [p.command]) == SignalsOf(commands) + [SignalOf(p.command)];
    }
  }

  /** A pick keeps every part of the invariant that is about the loop alone. */
  lemma PickKeeps<S, E>(a: Adapter<S, E>, outLines: seq<string>, errLines: seq<string>, s: System<S, E>, p: Pick)
    requires Inv(a, outLines, errLines, s) && !s.main.broken && !p.OutputClosed?
    ensures var next := Picked(a, s, p); var taken := Select(LineOf, next.picks);
            && taken == (if p.Output? then Select(LineOf, s.picks) + [p.line] else Select(LineOf, s.picks))
            && Accounts(a, next.main, taken)
            && Obeyed(next.main, Select(CommandOf, next.picks))
            && HandleAll(a, FirstMain(a), next.picks) == next.main
  {
    PickAccounts(a, s, p);
    PickIsObeyed(a, s, p);
    HandleAllPush(a, FirstMain(a), s.picks, p);
  }

  lemma TakeLineKeepsInv<S, E>(a: Adapter<S, E>, outLines: seq<string>, errLines: seq<string>, s: System<S, E>)
    requires Inv(a, outLines, errLines, s) && Next(a, s, TakeLine).Some?
    ensures Inv(a, outLines, errLines, Next(a, s, TakeLine).value)
  {
    var p := Output(s.queue[0]);
    PickKeeps(a, outLines, errLines, s, p);
    HandleKeepsDenials(a, s.main, p);
    QueueMoves(Select(LineOf, s.picks), s.queue);
    var taken := Select(LineOf, s.picks);
    SameStreams(s, Next(a, s, TakeLine).value, taken, taken + [s.queue[0]], outLines, errLines);
  }

  lemma QueueMoves(taken: seq<OutputLine>, queue: seq<OutputLine>)
    requires queue != []
    ensures taken + [queue[0]] + queue[1..] == taken + queue
  {
  }

  lemma ArrivalKeepsInv<S, E>(a: Adapter<S, E>, outLines: seq<string>, errLines: seq<string>, s: System<S, E>,
                              d: string)
    requires Inv(a, outLines, errLines, s) && Next(a, s, DenialArrives(d)).Some?
    ensures Inv(a, outLines, errLines, Next(a, s, DenialArrives(d)).value)
  {
    var next := Next(a, s, DenialArrives(d)).value;
    SameStreams(s, next, Select(LineOf, s.picks), Select(LineOf, s.picks), outLines, errLines);
    AppendAssoc(Select(DenialTarget, s.main.events), s.denials, [d]);
  }

  lemma TakeDenialKeepsInv<S, E>(a: Adapter<S, E>, outLines: seq<string>, errLines: seq<string>, s: System<S, E>)
    requires Inv(a, outLines, errLines, s) && Next(a, s, TakeDenial).Some?
    ensures Inv(a, outLines, errLines, Next(a, s, TakeDenial).value)
  {
    var p := Denied(s.denials[0]);
    PickKeeps(a, outLines, errLines, s, p);
    SameStreams(s, Next(a, s, TakeDenial).value, Select(LineOf, s.picks), Select(LineOf, s.picks), outLines, errLines);
    HandleKeepsDenials(a, s.main, p);
    HeadMoves(Select(DenialTarget, s.main.events), s.denials, s.arrived);
  }

  lemma DenialsClosedKeepsInv<S, E>(a: Adapter<S, E>, outLines: seq<string>, errLines: seq<string>, s: System<S, E>)
    requires Inv(a, outLines, errLines, s) && Next(a, s, TakeDenialsClosed).Some?
    ensures Inv(a, outLines, errLines, Next(a, s, TakeDenialsClosed).value)
  {
    PickKeeps(a, outLines, errLines, s, DenialsClosed);
    var taken := Select(LineOf, s.picks);
    SameStreams(s, Next(a, s, TakeDenialsClosed).value, taken, taken, outLines, errLines);
    HandleKeepsDenials(a, s.main, DenialsClosed);
  }

  lemma CommandKeepsInv<S, E>(a: Adapter<S, E>, outLines: seq<string>, errLines: seq<string>, s: System<S, E>,
                              c: Command)
    requires Inv(a, outLines, errLines, s) && Next(a, s, TakeCommand(c)).Some?
    ensures Inv(a, outLines, errLines, Next(a, s, TakeCommand(c)).value)
  {
    var p := Commanded(c);
    assert Next(a, s, TakeCommand(c)).value == Picked(a, s, p);
    PickKeeps(a, outLines, errLines, s, p);
    HandleKeepsDenials(a, s.main, p);
  }

  /** While the loop turns, a closed and empty output channel is never seen: both done marks come first. */
  lemma ClosedIsNeverSeen<S, E>(a: Adapter<S, E>, outLines: seq<string>, errLines: seq<string>, s: System<S, E>)
    requires Inv(a, outLines, errLines, s)
    ensures Next(a, s, TakeClosed).None?
  {
    if s.queue == [] {
      var taken := Select(LineOf, s.picks);
      assert taken + s.queue == taken;
    }
  }

  lemma StepKeepsInv<S, E>(a: Adapter<S, E>, outLines: seq<string>, errLines: seq<string>, s: System<S, E>, step: Step)
    requires Inv(a, outLines, errLines, s) && Next(a, s, step).Some?
    ensures Inv(a, outLines, errLines, Next(a, s, step).value)
  {
    match step
    case OutSends => OutKeepsStreams(a, outLines, errLines, s, Select(LineOf, s.picks));
    case ErrSends => ErrKeepsStreams(a, outLines, errLines, s, Select(LineOf, s.picks));
    case TakeLine => TakeLineKeepsInv(a, outLines, errLines, s);
    case TakeClosed => ClosedIsNeverSeen(a, outLines, errLines, s);
    case DenialArrives(d) => ArrivalKeepsInv(a, outLines, errLines, s, d);
    case TakeDenial => TakeDenialKeepsInv(a, outLines, errLines, s);
    case TakeDenialsClosed => DenialsClosedKeepsInv(a, outLines, errLines, s);
    case TakeCommand(c) => CommandKeepsInv(a, outLines, errLines, s, c);
  }

  lemma {:induction false} EveryStateIsInv<S, E>(a: Adapter<S, E>, outLines: seq<string>, errLines: seq<string>,
                                                 s: System<S, E>, steps: seq<Step>)
    requires Inv(a, outLines, errLines, s) && After(a, s, steps).Some?
    ensures Inv(a, outLines, errLines, After(a, s, steps).value)
    decreases |steps|
  {
    if steps != [] {
      StepKeepsInv(a, outLines, errLines, s, steps[0]);
      EveryStateIsInv(a, outLines, errLines, Next(a, s, steps[0]).value, steps[1..]);
    }
  }

  lemma StartIsInv<S, E>(a: Adapter<S, E>, utf8: Decoder, out: seq<RawLine>, err: seq<RawLine>)
    ensures Inv(a, Readable(utf8, out), Readable(utf8, err), Start(a, utf8, out, err))
  {
    assert [] + Readable(utf8, out) == Readable(utf8, out) && [] + Readable(utf8, err) == Readable(utf8, err);
  }

  /** The loop breaks only after everything both readers sent was taken, and they had no more to send. */
  lemma BreaksWhenAllIsTaken<S, E>(a: Adapter<S, E>, outLines: seq<string>, errLines: seq<string>, s: System<S, E>)
    requires Inv(a, outLines, errLines, s) && s.main.broken
    ensures s.queue == [] && s.out.finished && s.err.finished
    ensures Readable(s.utf8, s.out.left) == [] && Readable(s.utf8, s.err.left) == []
  {
    var taken := Select(LineOf, s.picks);
    SelectAppend(DoneMark, taken, s.queue);
    assert s.out.finished && s.err.finished && Select(DoneMark, s.queue) == [];
    if s.queue != [] {
      LastMarkIsQueued(taken, s.queue);
    }
  }

  lemma LastMarkIsQueued(taken: seq<OutputLine>, queue: seq<OutputLine>)
    requires queue != [] && (taken + queue)[|taken + queue| - 1] == Done
    ensures Select(DoneMark, queue) != []
  {
    var n := |queue| - 1;
    assert queue[n] == Done;
    assert queue == queue[..n] + [queue[n]];
    SelectPush(DoneMark, queue[..n], queue[n]);
  }

  // ---------- Whole runs ----------

  lemma ReachableIsInv<S, E>(a: Adapter<S, E>, utf8: Decoder, out: seq<RawLine>, err: seq<RawLine>, steps: seq<Step>,
                             s: System<S, E>)
    requires After(a, Start(a, utf8, out, err), steps) == Some(s)
    ensures Inv(a, Readable(utf8, out), Readable(utf8, err), s)
  {
    StartIsInv(a, utf8, out, err);
    EveryStateIsInv(a, Readable(utf8, out), Readable(utf8, err), Start(a, utf8, out, err), steps);
  }

  lemma EndingShows<S, E>(a: Adapter<S, E>, m: Main<S, E>, queued: seq<string>, exit: Exit)
    ensures var ending := Ending(a, m, queued, exit);
            && Select(ParsedEvent, ending) == a.flush(m.parser) && Select(ShownText, ending) == []
            && Select(DenialTarget, ending) == queued
  {
    var flushed := a.flush(m.parser);
    var denied: seq<Event<E>> := AllDenials(queued);
    var last: Event<E> := RunEnded(FinalReason(m.initiated, exit), ExitCode(exit));
    DenialsShow<E>(queued);
    ParsedShow(flushed);
    SelectAppend(ParsedEvent, denied, AllParsed(flushed));
    SelectAppend(ShownText, denied, AllParsed(flushed));
    SelectAppend(DenialTarget, denied, AllParsed(flushed));
    SelectPush(ParsedEvent, denied + AllParsed(flushed), last);
    SelectPush(ShownText, denied + AllParsed(flushed), last);
    SelectPush(DenialTarget, denied + AllParsed(flushed), last);
  }

  /** Once both streams are drained: what was taken and what the events show. */
  lemma DrainedAccounts<S, E>(a: Adapter<S, E>, outLines: seq<string>, errLines: seq<string>, s: System<S, E>)
    requires Inv(a, outLines, errLines, s) && s.main.broken
    ensures var taken := Select(LineOf, s.picks);
            Select(OutText, taken) == outLines && Select(ErrText, taken) == errLines
    ensures (s.main.parser, Select(ParsedEvent, s.main.events)) == RunParser(a, a.initial, outLines)
    ensures Select(ShownText, s.main.events) == errLines
    ensures Select(DenialTarget, s.main.events) + s.denials == s.arrived
  {
    BreaksWhenAllIsTaken(a, outLines, errLines, s);
    var taken := Select(LineOf, s.picks);
    assert taken + s.queue == taken;
    assert Select(OutText, taken) + [] == Select(OutText, taken)
           && Select(ErrText, taken) + [] == Select(ErrText, taken);
  }

  lemma WithEnding<S, E>(a: Adapter<S, E>, m: Main<S, E>, queued: seq<string>, exit: Exit)
    ensures var events := m.events + Ending(a, m, queued, exit);
            && Select(ParsedEvent, events) == Select(ParsedEvent, m.events) + a.flush(m.parser)
            && Select(ShownText, events) == Select(ShownText, m.events)
            && Select(DenialTarget, events) == Select(DenialTarget, m.events) + queued
  {
    var ending := Ending(a, m, queued, exit);
    EndingShows(a, m, queued, exit);
    SelectAppend(ParsedEvent, m.events, ending);
    SelectAppend(ShownText, m.events, ending);
    SelectAppend(DenialTarget, m.events, ending);
    assert Select(ShownText, m.events) + [] == Select(ShownText, m.events);
  }

  lemma WholeExactlyWhen(utf8: Decoder, lines: seq<RawLine>)
    ensures |Readable(utf8, lines)| == |lines| <==> AllReadable(utf8, lines)
  {
    ReadableIsPrefix(utf8, lines);
  }

  /**
    Under every interleaving of readers, denials and commands: the parser's events are those of the parser run over
    the stdout lines before the first that cannot be read, followed by its flush; likewise stderr is shown line by line;
    every denial that arrived is reported. The lines taken are the whole of a stream exactly when it is all readable.
  */
  lemma EveryRunAccountsForEverything<S, E>(a: Adapter<S, E>, utf8: Decoder, out: seq<RawLine>, err: seq<RawLine>,
                                            steps: seq<Step>, s: System<S, E>, exit: Exit)
    requires After(a, Start(a, utf8, out, err), steps) == Some(s) && s.main.broken
    ensures var events := s.main.events + Ending(a, s.main, s.denials, exit);
            && Select(ParsedEvent, events) == ParseAll(a, Readable(utf8, out))
            && Select(ShownText, events) == Readable(utf8, err)
            && Select(DenialTarget, events) == s.arrived
    ensures |Select(OutText, Select(LineOf, s.picks))| == |out| <==> AllReadable(utf8, out)
    ensures |Select(ErrText, Select(LineOf, s.picks))| == |err| <==> AllReadable(utf8, err)
  {
    ReachableIsInv(a, utf8, out, err, steps, s);
    DrainedAccounts(a, Readable(utf8, out), Readable(utf8, err), s);
    WithEnding(a, s.main, s.denials, exit);
    WholeExactlyWhen(utf8, out);
    WholeExactlyWhen(utf8, err);
  }

  /** A command that ends the run, and the reason it leaves. */
  ghost predicate EndsAs(c: Command, r: Reason) {
    (c == Stop && r == Stopped) || (c == Kill && r == Killed) || (c == Timeout && r == TimedOut)
  }

  ghost predicate SentAs(c: Command, s: Signal) {
    || (c == Stop && s == Terminate) || ((c == Kill || c == Timeout) && s == KillNow)
    || (c == Pause && s == Suspend) || (c == Resume && s == Continue)
  }

  /** The reason and the signals the commands taken call for: the last one that ends the run, and each its signal. */
  ghost predicate CommandsTell(commands: seq<Command>, initiated: Option<Reason>, signals: seq<Signal>) {
    && (initiated.None? ==> forall i :: 0 <= i < |commands| ==> commands[i] == Pause || commands[i] == Resume)
    && (initiated.Some? ==>
          exists i ::
            && 0 <= i < |commands| && EndsAs(commands[i], initiated.value)
            && forall j :: i < j < |commands| ==> commands[j] == Pause || commands[j] == Resume)
    && |signals| == |commands| && forall i :: 0 <= i < |commands| ==> SentAs(commands[i], signals[i])
  }

  lemma ObeyedTells<S, E>(m: Main<S, E>, commands: seq<Command>)
    requires Obeyed(m, commands)
    ensures CommandsTell(commands, m.initiated, m.signals)
  {
    assert forall c :: ReasonOf(c).None? <==> c == Pause || c == Resume;
    assert forall c :: ReasonOf(c).Some? ==> EndsAs(c, ReasonOf(c).value);
    assert forall c :: SentAs(c, SignalOf(c));
    if m.initiated.Some? {
      var i :|
        && 0 <= i < |commands| && ReasonOf(commands[i]) == m.initiated
        && forall j :: i < j < |commands| ==> ReasonOf(commands[j]).None?;
      assert EndsAs(commands[i], m.initiated.value);
    } else {
      assert forall i :: 0 <= i < |commands| ==> commands[i] in commands;
    }
  }

  lemma EndingEndsOnce<S, E>(a: Adapter<S, E>, m: Main<S, E>, queued: seq<string>, exit: Exit)
    requires Select(EndMark, m.events) == []
    ensures var events := m.events + Ending(a, m, queued, exit); var n := |events| - 1;
            && n >= 0 && Select(EndMark, events[..n]) == []
            && events[n] == RunEnded(FinalReason(m.initiated, exit), ExitCode(exit))
  {
    var flushed := AllParsed(a.flush(m.parser));
    var denied: seq<Event<E>> := AllDenials(queued);
    var last: seq<Event<E>> := [RunEnded(FinalReason(m.initiated, exit), ExitCode(exit))];
    AppendAssoc(m.events, denied + flushed, last);
    var before := m.events + (denied + flushed);
    assert (before + last)[..|before|] == before;
    DenialsShow<E>(queued);
    ParsedShow(a.flush(m.parser));
    SelectAppend(EndMark, denied, flushed);
    SelectAppend(EndMark, m.events, denied + flushed);
  }

  /**
    `run_ended` comes exactly once and last. Its reason is that of the last command taken that ends a run; without one
    it is the agent's own exit, or `killed` for a child that left no exit code. Each command was signalled, in order.
  */
  lemma EveryRunEndsOnce<S, E>(a: Adapter<S, E>, utf8: Decoder, out: seq<RawLine>, err: seq<RawLine>,
                               steps: seq<Step>, s: System<S, E>, exit: Exit)
    requires After(a, Start(a, utf8, out, err), steps) == Some(s)
    ensures var events := s.main.events + Ending(a, s.main, s.denials, exit); var n := |events| - 1;
            && n >= 0 && Select(EndMark, events[..n]) == []
            && events[n] == RunEnded(if s.main.initiated.Some? then s.main.initiated.value
                                     else if exit == HostExit(None) then Killed else AgentExit,
                                     if exit.HostExit? then exit.code else None)
    ensures var commands := Select(CommandOf, s.picks);
            IsLastReason(commands, s.main.initiated) && s.main.signals == SignalsOf(commands)
  {
    ReachableIsInv(a, utf8, out, err, steps, s);
    EndingEndsOnce(a, s.main, s.denials, exit);
  }

  /**
    In every run: a stop terminates, a kill and a timeout kill, pause and resume do so; the last of the first three
    names the reason.
  */
  lemma EveryCommandIsObeyed<S, E>(a: Adapter<S, E>, utf8: Decoder, out: seq<RawLine>, err: seq<RawLine>,
                                   steps: seq<Step>, s: System<S, E>)
    requires After(a, Start(a, utf8, out, err), steps) == Some(s)
    ensures CommandsTell(Select(CommandOf, s.picks), s.main.initiated, s.main.signals)
  {
    ReachableIsInv(a, utf8, out, err, steps, s);
    ObeyedTells(s.main, Select(CommandOf, s.picks));
  }

  /** The state of the machine's loop is the one the class `Supervisor` computes from the same picks. */
  lemma MachineFollowsLoop<S, E>(a: Adapter<S, E>, utf8: Decoder, out: seq<RawLine>, err: seq<RawLine>,
                                 steps: seq<Step>, s: System<S, E>)
    requires After(a, Start(a, utf8, out, err), steps) == Some(s)
    ensures HandleAll(a, FirstMain(a), s.picks) == s.main
  {
    ReachableIsInv(a, utf8, out, err, steps, s);
  }

  /** How much reading and taking is left. */
  function Measure<S, E>(s: System<S, E>): nat {
    2 * (|s.out.left| + |s.err.left| + (if s.out.finished then 0 else 1) + if s.err.finished then 0 else 1) + |s.queue|
  }

  lemma {:induction false} QueueStays<S, E>(a: Adapter<S, E>, s: System<S, E>, steps: seq<Step>)
    requires After(a, s, steps).Some? && |s.queue| <= 256
    ensures |After(a, s, steps).value.queue| <= 256
    decreases |steps|
  {
    if steps != [] {
      var next := Next(a, s, steps[0]).value;
      assert |next.queue| <= 256;
      QueueStays(a, next, steps[1..]);
    }
  }

  /**
    In every run the channel never holds more than 256 lines, and while it holds fewer a reader that has not finished
    can send.
  */
  lemma QueueIsBounded<S, E>(a: Adapter<S, E>, utf8: Decoder, out: seq<RawLine>, err: seq<RawLine>, steps: seq<Step>,
                             s: System<S, E>)
    requires After(a, Start(a, utf8, out, err), steps) == Some(s)
    ensures |s.queue| <= 256
    ensures Next(a, s, OutSends).Some? <==> !s.out.finished && |s.queue| < 256
    ensures Next(a, s, ErrSends).Some? <==> !s.err.finished && |s.queue| < 256
  {
    QueueStays(a, Start(a, utf8, out, err), steps);
  }

  predicate IsStreamStep(step: Step) {
    step.OutSends? || step.ErrSends? || step.TakeLine?
  }

  /** The bounded channel never wedges: until the loop breaks a reader can send or a line can be taken. */
  lemma NeverWedged<S, E>(a: Adapter<S, E>, outLines: seq<string>, errLines: seq<string>, s: System<S, E>)
    returns (step: Step)
    requires Inv(a, outLines, errLines, s) && !s.main.broken
    ensures IsStreamStep(step) && Next(a, s, step).Some?
  {
    ClosedIsNeverSeen(a, outLines, errLines, s);
    step := if s.queue != [] then TakeLine else if !s.out.finished then OutSends else ErrSends;
  }

  /** Each of those steps leaves less to do and no other step adds any, so only so many can precede the break. */
  lemma EachStepLeavesLess<S, E>(a: Adapter<S, E>, s: System<S, E>, step: Step)
    requires Next(a, s, step).Some?
    ensures Measure(Next(a, s, step).value) <= Measure(s)
    ensures IsStreamStep(step) ==> Measure(Next(a, s, step).value) < Measure(s)
  {
  }

  lemma {:induction false} CanBreak<S, E>(a: Adapter<S, E>, outLines: seq<string>, errLines: seq<string>,
                                          s: System<S, E>)
    returns (steps: seq<Step>, last: System<S, E>)
    requires Inv(a, outLines, errLines, s)
    ensures After(a, s, steps) == Some(last) && last.main.broken
    decreases Measure(s)
  {
    steps, last := [], s;
    if !s.main.broken {
      var step := NeverWedged(a, outLines, errLines, s);
      StepKeepsInv(a, outLines, errLines, s, step);
      EachStepLeavesLess(a, s, step);
      var rest;
      rest, last := CanBreak(a, outLines, errLines, Next(a, s, step).value);
      steps := [step] + rest;
      assert steps[1..] == rest;
    }
  }

  /** Whatever the streams hold, some run of the loop comes to its end. */
  lemma SomeRunBreaks<S, E>(a: Adapter<S, E>, utf8: Decoder, out: seq<RawLine>, err: seq<RawLine>)
    returns (steps: seq<Step>, s: System<S, E>)
    ensures After(a, Start(a, utf8, out, err), steps) == Some(s) && s.main.broken
  {
    StartIsInv(a, utf8, out, err);
    steps, s := CanBreak(a, Readable(utf8, out), Readable(utf8, err), Start(a, utf8, out, err));
  }

  /**
    A first line that cannot be read hides the second, which can: a run that takes neither and shows no parsed line.
  */
  lemma UnreadableLineHidesTheNext<S, E>(a: Adapter<S, E>, utf8: Decoder, bad: Bytes, good: Bytes, exit: Exit)
    returns (steps: seq<Step>, s: System<S, E>)
    requires utf8(bad).None? && utf8(good).Some?
    ensures After(a, Start(a, utf8, [Raw(bad), Raw(good)], []), steps) == Some(s) && s.main.broken
    ensures Select(OutText, Select(LineOf, s.picks)) == []
    ensures Select(ParsedEvent, s.main.events + Ending(a, s.main, s.denials, exit)) == a.flush(a.initial)
  {
    var out := [Raw(bad), Raw(good)];
    steps, s := SomeRunBreaks(a, utf8, out, []);
    assert Decoded(utf8, out[0]).None? && Readable(utf8, out) == [];
    ReachableIsInv(a, utf8, out, [], steps, s);
    DrainedAccounts(a, Readable(utf8, out), Readable(utf8, []), s);
    EveryRunAccountsForEverything(a, utf8, out, [], steps, s, exit);
    assert [] + a.flush(a.initial) == a.flush(a.initial);
  }
}

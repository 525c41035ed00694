/** The pi adapter under the supervisor: session usages are sums of turn usages in whole supervised runs. */
module SupervisedPi {
  import P = PiAdapter
  import opened Sequences
  import opened Supervision
  import opened Wrappers

  function PiParser(classify: string -> P.Line): Adapter<P.State, P.Event> {
    Adapter(P.FRESH, (s, text) => P.Step(s, classify(text)), _ => [])
  }

  lemma {:induction false} RunIsTranscript(classify: string -> P.Line, s: P.State, lines: seq<string>)
    ensures RunParser(PiParser(classify), s, lines).1 == P.Transcript(s, Classified(classify, lines))
    decreases |lines|
  {
    if lines != [] {
      var (next, es) := P.Step(s, classify(lines[0]));
      RunIsTranscript(classify, next, lines[1..]);
      assert Classified(classify, lines)[1..] == Classified(classify, lines[1..]);
    }
  }

  lemma ParsedIsTranscript(classify: string -> P.Line, utf8: Decoder, out: seq<RawLine>, err: seq<RawLine>,
                           steps: seq<Step>, s: System<P.State, P.Event>, exit: Exit)
    requires After(PiParser(classify), Start(PiParser(classify), utf8, out, err), steps) == Some(s)
    requires s.main.broken
    ensures Select(ParsedEvent, s.main.events + Ending(PiParser(classify), s.main, s.denials, exit))
            == P.Transcript(P.FRESH, Classified(classify, Readable(utf8, out)))
  {
    EveryRunAccountsForEverything(PiParser(classify), utf8, out, err, steps, s, exit);
    RunIsTranscript(classify, P.FRESH, Readable(utf8, out));
    var es := RunParser(PiParser(classify), P.FRESH, Readable(utf8, out)).1;
    assert es + [] == es;
  }

  /**
    However readers, denials and commands interleave: every session usage a supervised pi run reports is the sum of the
    turn usages reported before it, and those are the usages of the stdout lines before the first that cannot be read.
  */
  lemma SupervisedTotalsAreSums(classify: string -> P.Line, utf8: Decoder, out: seq<RawLine>, err: seq<RawLine>,
                                steps: seq<Step>, s: System<P.State, P.Event>, exit: Exit)
    requires After(PiParser(classify), Start(PiParser(classify), utf8, out, err), steps) == Some(s)
    requires s.main.broken
    ensures var ending := Ending(PiParser(classify), s.main, s.denials, exit);
            var events: seq<P.Event> := Select(ParsedEvent, s.main.events + ending);
            forall k :: 0 <= k < |events| && events[k].SessionUsage? ==>
              events[k].totals == P.Sum(Select(P.UsageOf, events[..k]))
    ensures Select(P.UsageOf, Select(ParsedEvent, s.main.events + Ending(PiParser(classify), s.main, s.denials, exit)))
            == Select(P.LineUsage, Classified(classify, Readable(utf8, out)))
  {
    ParsedIsTranscript(classify, utf8, out, err, steps, s, exit);
    P.SessionTotalsAreSums(Classified(classify, Readable(utf8, out)));
    P.UsagesAreReported(P.FRESH, Classified(classify, Readable(utf8, out)));
  }
}

/** The aider adapter under the supervisor: its guarantees hold of whole supervised runs. */
module SupervisedAider {
  import A = AiderAdapter
  import opened Sequences
  import opened Supervision
  import opened Wrappers

  function AiderParser(classify: string -> A.Line): Adapter<A.State, A.Event> {
    Adapter(A.FRESH, (s, text) => A.Step(s, classify(text)), s => A.Flush(s).1)
  }

  lemma {:induction false} RunIsTranscript(classify: string -> A.Line, s: A.State, lines: seq<string>)
    ensures var (last, es) := RunParser(AiderParser(classify), s, lines);
            es + A.Flush(last).1 == A.Transcript(s, Classified(classify, lines))
    decreases |lines|
  {
    var a := AiderParser(classify);
    if lines == [] {
      assert [] + A.Flush(s).1 == A.Flush(s).1;
    } else {
      var (next, es) := A.Step(s, classify(lines[0]));
      var (last, more) := RunParser(a, next, lines[1..]);
      RunIsTranscript(classify, next, lines[1..]);
      assert Classified(classify, lines)[1..] == Classified(classify, lines[1..]);
      AppendAssoc(es, more, A.Flush(last).1);
    }
  }

  lemma ParsedIsTranscript(classify: string -> A.Line, utf8: Decoder, out: seq<RawLine>, err: seq<RawLine>,
                           steps: seq<Step>, s: System<A.State, A.Event>, exit: Exit)
    requires After(AiderParser(classify), Start(AiderParser(classify), utf8, out, err), steps) == Some(s)
    requires s.main.broken
    ensures Select(ParsedEvent, s.main.events + Ending(AiderParser(classify), s.main, s.denials, exit))
            == A.Transcript(A.FRESH, Classified(classify, Readable(utf8, out)))
  {
    EveryRunAccountsForEverything(AiderParser(classify), utf8, out, err, steps, s, exit);
    RunIsTranscript(classify, A.FRESH, Readable(utf8, out));
  }

  /**
    However readers, denials and commands interleave: the turns of a supervised aider run are bracketed, its token
    counts conserved, and its other lines shown in order, over the stdout lines before the first that cannot be read.
  */
  lemma SupervisedTurnsAreBracketed(classify: string -> A.Line, utf8: Decoder, out: seq<RawLine>, err: seq<RawLine>,
                                    steps: seq<Step>, s: System<A.State, A.Event>, exit: Exit)
    requires After(AiderParser(classify), Start(AiderParser(classify), utf8, out, err), steps) == Some(s)
    requires s.main.broken
    ensures var events := Select(ParsedEvent, s.main.events + Ending(AiderParser(classify), s.main, s.denials, exit));
            var lines := Classified(classify, Readable(utf8, out));
            && A.Turns(events, 0, false) == Some((A.PromptCount(lines), false))
            && A.Usages(events) == A.ExpectedUsages(lines, None)
            && A.Outputs(events) == A.ShownLines(None, lines)
  {
    ParsedIsTranscript(classify, utf8, out, err, steps, s, exit);
    A.TurnsAreBracketed(Classified(classify, Readable(utf8, out)));
    A.TokenCountsAreConserved(Classified(classify, Readable(utf8, out)));
    A.OtherLinesPassThrough(Classified(classify, Readable(utf8, out)));
  }
}

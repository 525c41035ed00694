/** The codex adapter under the supervisor: calls and results pair in whole supervised runs. */
module SupervisedCodex {
  import C = CodexAdapter
  import opened Sequences
  import opened Supervision
  import opened Wrappers

  function CodexParser(classify: string -> C.Line): Adapter<C.State, C.Event> {
    Adapter(C.FRESH, (s, text) => C.Step(s, classify(text)), _ => [])
  }

  lemma {:induction false} RunIsTranscript(classify: string -> C.Line, s: C.State, lines: seq<string>)
    ensures RunParser(CodexParser(classify), s, lines).1 == C.Transcript(s, Classified(classify, lines))
    decreases |lines|
  {
    if lines != [] {
      var (next, es) := C.Step(s, classify(lines[0]));
      RunIsTranscript(classify, next, lines[1..]);
      assert Classified(classify, lines)[1..] == Classified(classify, lines[1..]);
    }
  }

  lemma ParsedIsTranscript(classify: string -> C.Line, utf8: Decoder, out: seq<RawLine>, err: seq<RawLine>,
                           steps: seq<Step>, s: System<C.State, C.Event>, exit: Exit)
    requires After(CodexParser(classify), Start(CodexParser(classify), utf8, out, err), steps) == Some(s)
    requires s.main.broken
    ensures Select(ParsedEvent, s.main.events + Ending(CodexParser(classify), s.main, s.denials, exit))
            == C.Transcript(C.FRESH, Classified(classify, Readable(utf8, out)))
  {
    EveryRunAccountsForEverything(CodexParser(classify), utf8, out, err, steps, s, exit);
    RunIsTranscript(classify, C.FRESH, Readable(utf8, out));
    var es := RunParser(CodexParser(classify), C.FRESH, Readable(utf8, out)).1;
    assert es + [] == es;
  }

  /**
    However readers, denials and commands interleave: over the stdout lines before the first that cannot be read, a
    supervised codex run reports each tool call once, at its first mention, and every result after its call.
  */
  lemma SupervisedCallsAndResultsPair(classify: string -> C.Line, utf8: Decoder, out: seq<RawLine>, err: seq<RawLine>,
                                      steps: seq<Step>, s: System<C.State, C.Event>, exit: Exit)
    requires After(CodexParser(classify), Start(CodexParser(classify), utf8, out, err), steps) == Some(s)
    requires s.main.broken
    ensures var events := Select(ParsedEvent, s.main.events + Ending(CodexParser(classify), s.main, s.denials, exit));
            var calls := Select(C.Called, events);
            var lines := Classified(classify, Readable(utf8, out));
            && calls == FirstMentions(Select(C.ToolItem, lines), {})
            && (forall i, j :: 0 <= i < j < |calls| ==> calls[i] != calls[j])
            && Select(C.Answered, events) == Select(C.CompletedTool, lines)
            && forall k :: 0 <= k < |events| && events[k].ToolResult? ==>
                 exists i :: 0 <= i < k && C.Called(events[i]) == Some(events[k].id)
  {
    ParsedIsTranscript(classify, utf8, out, err, steps, s, exit);
    C.CallsAndResultsPair(Classified(classify, Readable(utf8, out)));
  }
}

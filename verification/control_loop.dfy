/**
  The control channel into the guest: the host writes one JSON object per line; the guest reads arbitrary chunks,
  cuts lines out of a carried buffer and signals the agent's process group.
*/
module ControlLoop {
  import opened Sequences
  import opened Text
  import opened Wrappers

  datatype Op = Stop | Kill | Pause | Resume

  datatype Signal = Terminate | KillAfterGrace | KillNow | Suspend | Continue

  /** One read from the control socket; an empty one is the end of the stream. */
  datatype Read = Data(bytes: Bytes) | Failed

  // ---------- Lines of a text ----------

  function FindNewline(s: string): (p: nat)
    ensures p <= |s| && (p < |s| ==> s[p] == '\n')
    ensures forall i :: 0 <= i < p ==> s[i] != '\n'
  {
    if s == [] || s[0] == '\n' then 0 else 1 + FindNewline(s[1..])
  }

  /** The complete lines of `s`, without their newlines. */
  function Lines(s: string): seq<string>
    decreases |s|
  {
    var p := FindNewline(s);
    if p == |s| then [] else [s[..p]] + Lines(s[p + 1..])
  }

  /** What follows the last newline of `s`. */
  function Rest(s: string): string
    decreases |s|
  {
    var p := FindNewline(s);
    if p == |s| then s else Rest(s[p + 1..])
  }

  function Join(lines: seq<string>): string {
    if lines == [] then "" else lines[0] + "\n" + Join(lines[1..])
  }

  predicate OneLine(s: string) {
    '\n' !in s
  }

  lemma FindIs(s: string, p: nat)
    requires p <= |s| && OneLine(s[..p]) && (p < |s| ==> s[p] == '\n')
    ensures FindNewline(s) == p
  {
    assert forall i :: 0 <= i < p ==> s[..p][i] == s[i] && s[i] != '\n';
  }

  /** Cutting into lines is the one way to read `s` as newline-terminated lines and a remainder without one. */
  lemma {:induction false} LinesAreTheOnlySplit(lines: seq<string>, rest: string)
    requires (forall l :: l in lines ==> OneLine(l)) && OneLine(rest)
    ensures Lines(Join(lines) + rest) == lines && Rest(Join(lines) + rest) == rest
  {
    var s := Join(lines) + rest;
    if lines == [] {
      assert s == rest && rest[..|rest|] == rest;
      FindIs(s, |s|);
    } else {
      AppendAssoc(lines[0] + "\n", Join(lines[1..]), rest);
      FirstLine(lines[0], Join(lines[1..]) + rest);
      LinesAreTheOnlySplit(lines[1..], rest);
    }
  }

  lemma FirstLine(line: string, later: string)
    requires OneLine(line)
    ensures var s := line + "\n" + later;
            FindNewline(s) == |line| < |s| && Lines(s) == [line] + Lines(later) && Rest(s) == Rest(later)
  {
    var s := line + "\n" + later;
    assert s[..|line|] == line && s[|line|] == '\n' && s[|line| + 1..] == later;
    FindIs(s, |line|);
  }

  /** A text with a newline is a line and what follows it. */
  lemma SplitFirst(s: string) returns (line: string, later: string)
    requires FindNewline(s) < |s|
    ensures s == line + "\n" + later && OneLine(line) && line == s[..FindNewline(s)] && later == s[FindNewline(s) + 1..]
  {
    line, later := s[..FindNewline(s)], s[FindNewline(s) + 1..];
  }

  lemma {:induction false} LinesAreLines(s: string)
    ensures (forall l :: l in Lines(s) ==> OneLine(l)) && OneLine(Rest(s))
    decreases |s|
  {
    if FindNewline(s) < |s| {
      var line, later := SplitFirst(s);
      FirstLine(line, later);
      LinesAreLines(later);
    }
  }

  lemma {:induction false} LinesAndRestRebuild(s: string)
    ensures Join(Lines(s)) + Rest(s) == s
    decreases |s|
  {
    if FindNewline(s) < |s| {
      var line, later := SplitFirst(s);
      FirstLine(line, later);
      LinesAndRestRebuild(later);
      JoinHead(line, Lines(later));
      AppendAssoc(line + "\n", Join(Lines(later)), Rest(later));
    }
  }

  lemma JoinHead(line: string, rest: seq<string>)
    ensures Join([line] + rest) == line + "\n" + Join(rest)
  {
    TailOf(line, rest);
  }

  lemma {:induction false} JoinAppend(a: seq<string>, b: seq<string>)
    ensures Join(a + b) == Join(a) + Join(b)
  {
    if a == [] {
      assert a + b == b;
    } else {
      assert (a + b)[1..] == a[1..] + b;
      JoinAppend(a[1..], b);
    }
  }

  /** What is cut from `a` now and from its remainder followed by `b` later is what is cut from `a + b`. */
  lemma CuttingIsIncremental(a: string, b: string)
    ensures Lines(a + b) == Lines(a) + Lines(Rest(a) + b)
    ensures Rest(a + b) == Rest(Rest(a) + b)
  {
    var now, later := Lines(a), Lines(Rest(a) + b);
    var rest := Rest(Rest(a) + b);
    LinesAreLines(a);
    LinesAreLines(Rest(a) + b);
    RebuiltTogether(a, b);
    assert forall l :: l in now + later ==> OneLine(l);
    LinesAreTheOnlySplit(now + later, rest);
  }

  lemma RebuiltTogether(a: string, b: string)
    ensures Join(Lines(a) + Lines(Rest(a) + b)) + Rest(Rest(a) + b) == a + b
  {
    var now, later := Lines(a), Lines(Rest(a) + b);
    LinesAndRestRebuild(a);
    LinesAndRestRebuild(Rest(a) + b);
    JoinAppend(now, later);
    AppendAssoc(Join(now), Rest(a), b);
    AppendAssoc(Join(now), Join(later), Rest(Rest(a) + b));
  }

  // ---------- Dispatch ----------

  function SignalsOfOp(op: Op): seq<Signal> {
    match op
    case Stop => [Terminate, KillAfterGrace]
    case Kill => [KillNow]
    case Pause => [Suspend]
    case Resume => [Continue]
  }

  function OpNamed(name: string): Option<Op> {
    if name == "stop" then Some(Stop)
    else if name == "kill" then Some(Kill)
    else if name == "pause" then Some(Pause)
    else if name == "resume" then Some(Resume)
    else None
  }

  /** The signals one line leads to; `opOf` reads the string under "op" out of a JSON text, if there is one. */
  function SignalsOfLine(opOf: string -> Option<string>, line: string): seq<Signal> {
    var name := opOf(Trim(line));
    if name.None? || OpNamed(name.value).None? then [] else SignalsOfOp(OpNamed(name.value).value)
  }

  function SignalsOfLines(opOf: string -> Option<string>, lines: seq<string>): seq<Signal> {
    if lines == [] then [] else SignalsOfLine(opOf, lines[0]) + SignalsOfLines(opOf, lines[1..])
  }

  lemma {:induction false} SignalsAppend(opOf: string -> Option<string>, a: seq<string>, b: seq<string>)
    ensures SignalsOfLines(opOf, a + b) == SignalsOfLines(opOf, a) + SignalsOfLines(opOf, b)
    decreases |a|
  {
    if a == [] {
      assert a + b == b;
    } else {
      assert (a + b)[1..] == a[1..] + b;
      SignalsAppend(opOf, a[1..], b);
    }
  }

  // ---------- The guest ----------

  /** The text the guest sees: chunks up to the end of the stream, one that is not UTF-8 counting as empty. */
  function Received(utf8: Bytes -> Option<string>, input: seq<Read>): string
    decreases |input|
  {
    if input == [] || input[0].Failed? || input[0].bytes == [] then ""
    else TextOf(utf8, input[0].bytes) + Received(utf8, input[1..])
  }

  function TextOf(utf8: Bytes -> Option<string>, bytes: Bytes): string {
    if utf8(bytes).Some? then utf8(bytes).value else ""
  }

  lemma {:induction false} ReceivedTakes(utf8: Bytes -> Option<string>, read: seq<Read>, rest: seq<Read>)
    requires forall r :: r in read ==> r.Data? && r.bytes != []
    ensures Received(utf8, read + rest) == Received(utf8, read) + Received(utf8, rest)
    decreases |read|
  {
    if read == [] {
      assert read + rest == rest;
    } else {
      assert (read + rest)[1..] == read[1..] + rest;
      ReceivedTakes(utf8, read[1..], rest);
      AppendAssoc(TextOf(utf8, read[0].bytes), Received(utf8, read[1..]), Received(utf8, rest));
    }
  }

  /** A read that fails or is empty ends the text; a chunk that is not UTF-8 adds nothing to it. */
  lemma ReceivedEnds(utf8: Bytes -> Option<string>, read: seq<Read>, rest: seq<Read>, bad: Bytes)
    requires forall r :: r in read ==> r.Data? && r.bytes != []
    ensures Received(utf8, read + ([Failed] + rest)) == Received(utf8, read)
    ensures Received(utf8, read + ([Data([])] + rest)) == Received(utf8, read)
    ensures bad != [] && utf8(bad).None? ==> Received(utf8, read + ([Data(bad)] + rest)) == Received(utf8, read + rest)
  {
    ReceivedTakes(utf8, read, [Failed] + rest);
    ReceivedTakes(utf8, read, [Data([])] + rest);
    ReceivedTakes(utf8, read, [Data(bad)] + rest);
    ReceivedTakes(utf8, read, rest);
    TailOf(Data(bad), rest);
    assert Received(utf8, read) + "" == Received(utf8, read);
    assert "" + Received(utf8, rest) == Received(utf8, rest);
  }

  /** White space around a line does not matter. */
  lemma MarginsDoNotSignal(opOf: string -> Option<string>, lead: string, line: string, trail: string)
    requires AllSpaces(lead) && AllSpaces(trail) && HasNoMargin(line)
    ensures SignalsOfLine(opOf, lead + line + trail) == SignalsOfLine(opOf, line)
  {
    TrimDropsMargins(lead, line, trail);
    TrimDropsMargins("", line, "");
    assert "" + line + "" == line;
  }

  class Guest {
    var buf: string
    var sent: seq<Signal>
    const utf8: Bytes -> Option<string>
    const opOf: string -> Option<string>

    constructor (utf8: Bytes -> Option<string>, opOf: string -> Option<string>)
      ensures buf == "" && sent == [] && this.utf8 == utf8 && this.opOf == opOf
    {
      buf, sent := "", [];
      this.utf8, this.opOf := utf8, opOf;
    }

    method Dispatch(line: string)
      modifies this`sent
      ensures sent == old(sent) + SignalsOfLine(opOf, line)
      ensures var name := opOf(Trim(line));
              sent == old(sent)
                      + if name == Some("stop") then [Terminate, KillAfterGrace]
                        else if name == Some("kill") then [KillNow]
                        else if name == Some("pause") then [Suspend]
                        else if name == Some("resume") then [Continue]
                        else []
    {
      var name := opOf(Trim(line));
      if name.None? {
        return;
      }
      match OpNamed(name.value)
      case Some(Stop) => sent := sent + [Terminate, KillAfterGrace];
      case Some(Kill) => sent := sent + [KillNow];
      case Some(Pause) => sent := sent + [Suspend];
      case Some(Resume) => sent := sent + [Continue];
      case None =>
    }

    /** One chunk: every line it completes is dispatched in order, and what follows the last newline is kept. */
    method Feed(bytes: Bytes)
      modifies this
      ensures buf == Rest(old(buf) + TextOf(utf8, bytes)) && OneLine(buf)
      ensures sent == old(sent) + SignalsOfLines(opOf, Lines(old(buf) + TextOf(utf8, bytes)))
    {
      buf := buf + TextOf(utf8, bytes);
      ghost var all := buf;
      var pos := FindNewline(buf);
      while pos < |buf|
        invariant pos == FindNewline(buf)
        invariant Rest(buf) == Rest(all)
        invariant sent + SignalsOfLines(opOf, Lines(buf)) == old(sent) + SignalsOfLines(opOf, Lines(all))
        decreases |buf|
      {
        var line := buf[..pos];
        ghost var before, later := sent, SignalsOfLines(opOf, Lines(buf[pos + 1..]));
        var _, _ := SplitFirst(buf);
        FirstLine(line, buf[pos + 1..]);
        TailOf(line, Lines(buf[pos + 1..]));
        AppendAssoc(before, SignalsOfLine(opOf, line), later);
        buf := buf[pos + 1..];
        Dispatch(line);
        pos := FindNewline(buf);
      }
      LinesAreLines(all);
    }

    lemma OneRead(input: seq<Read>, i: nat, held: string)
      requires i < |input| && input[i].Data? && input[i].bytes != []
      ensures var got := held + TextOf(utf8, input[i].bytes);
              var later := Received(utf8, input[i + 1..]);
              Rest(held + Received(utf8, input[i..])) == Rest(Rest(got) + later)
              && SignalsOfLines(opOf, Lines(held + Received(utf8, input[i..])))
                 == SignalsOfLines(opOf, Lines(got)) + SignalsOfLines(opOf, Lines(Rest(got) + later))
    {
      var text, later := TextOf(utf8, input[i].bytes), Received(utf8, input[i + 1..]);
      assert input[i..][0] == input[i] && input[i..][1..] == input[i + 1..];
      AppendAssoc(held, text, later);
      CuttingIsIncremental(held + text, later);
      SignalsAppend(opOf, Lines(held + text), Lines(Rest(held + text) + later));
    }

    /** The whole loop: what is dispatched depends only on the text received, not on how it was chunked. */
    method Run(input: seq<Read>)
      requires OneLine(buf)
      modifies this
      ensures OneLine(buf) && buf == Rest(old(buf) + Received(utf8, input))
      ensures sent == old(sent) + SignalsOfLines(opOf, Lines(old(buf) + Received(utf8, input)))
    {
      ghost var whole := buf + Received(utf8, input);
      var i := 0;
      assert input[0..] == input;
      while i < |input| && input[i].Data? && input[i].bytes != []
        invariant 0 <= i <= |input| && OneLine(buf)
        invariant Rest(buf + Received(utf8, input[i..])) == Rest(whole)
        invariant sent + SignalsOfLines(opOf, Lines(buf + Received(utf8, input[i..])))
               == old(sent) + SignalsOfLines(opOf, Lines(whole))
      {
        ghost var before := sent;
        OneRead(input, i, buf);
        AppendAssoc(before, SignalsOfLines(opOf, Lines(buf + TextOf(utf8, input[i].bytes))),
                    SignalsOfLines(opOf,
                      Lines(Rest(buf + TextOf(utf8, input[i].bytes)) + Received(utf8, input[i + 1..]))));
        Feed(input[i].bytes);
        i := i + 1;
      }
      assert Received(utf8, input[i..]) == "" && buf + "" == buf;
      FindIs(buf, |buf|);
    }
  }

  // ---------- What the host writes ----------

  function OpName(op: Op): string {
    match op
    case Stop => "stop"
    case Kill => "kill"
    case Pause => "pause"
    case Resume => "resume"
  }

  /** The message the host writes for an op, without its newline. */
  function Message(op: Op): string {
    "{\"op\":\"" + OpName(op) + "\"}"
  }

  function Messages(ops: seq<Op>): seq<string> {
    seq(|ops|, i requires 0 <= i < |ops| => Message(ops[i]))
  }

  /** All that the host writes for `ops`. */
  function Script(ops: seq<Op>): string {
    Join(Messages(ops))
  }

  function SignalsOfOps(ops: seq<Op>): seq<Signal> {
    if ops == [] then [] else SignalsOfOp(ops[0]) + SignalsOfOps(ops[1..])
  }

  /** A JSON reader that understands what the host writes. */
  predicate ReadsMessages(opOf: string -> Option<string>) {
    && opOf("{\"op\":\"stop\"}") == Some("stop") && opOf("{\"op\":\"kill\"}") == Some("kill")
    && opOf("{\"op\":\"pause\"}") == Some("pause") && opOf("{\"op\":\"resume\"}") == Some("resume")
  }

  lemma MessageIsOneLine(op: Op)
    ensures OneLine(Message(op)) && Trim(Message(op)) == Message(op)
  {
  }

  /** One op after another: stop terminates and then kills, kill kills, pause suspends, resume continues. */
  lemma SignalsOfMoreOps(ops: seq<Op>, op: Op)
    ensures SignalsOfOps([op] + ops)
            == (if op == Stop then [Terminate, KillAfterGrace]
                else if op == Kill then [KillNow]
                else if op == Pause then [Suspend]
                else [Continue]) + SignalsOfOps(ops)
  {
    TailOf(op, ops);
  }

  /** Each op is written under its own name. */
  lemma MessagesAre()
    ensures Message(Stop) == "{\"op\":\"stop\"}" && Message(Kill) == "{\"op\":\"kill\"}"
    ensures Message(Pause) == "{\"op\":\"pause\"}" && Message(Resume) == "{\"op\":\"resume\"}"
  {
  }

  lemma MessageSignals(opOf: string -> Option<string>, op: Op)
    requires ReadsMessages(opOf)
    ensures SignalsOfLine(opOf, Message(op)) == SignalsOfOp(op)
  {
    MessagesAre();
    MessageIsOneLine(op);
  }

  lemma {:induction false} MessagesSignal(opOf: string -> Option<string>, ops: seq<Op>)
    requires ReadsMessages(opOf)
    ensures SignalsOfLines(opOf, Messages(ops)) == SignalsOfOps(ops)
    decreases |ops|
  {
    if ops != [] {
      MessageSignals(opOf, ops[0]);
      assert Messages(ops)[0] == Message(ops[0]) && Messages(ops)[1..] == Messages(ops[1..]);
      MessagesSignal(opOf, ops[1..]);
    }
  }

  lemma ScriptAppend(a: seq<Op>, b: seq<Op>)
    ensures Script(a + b) == Script(a) + Script(b)
  {
    assert Messages(a + b) == Messages(a) + Messages(b);
    JoinAppend(Messages(a), Messages(b));
  }

  lemma ScriptOfOne(op: Op)
    ensures Script([op]) == Message(op) + "\n"
  {
    assert Messages([op]) == [Message(op)] + [];
    JoinHead(Message(op), []);
  }

  lemma ScriptGrows(ops: seq<Op>, op: Op)
    ensures Script(ops + [op]) == Script(ops) + (Message(op) + "\n")
  {
    ScriptAppend(ops, [op]);
    ScriptOfOne(op);
  }

  lemma MessagesOfPrefix(ops: seq<Op>, a: seq<string>, b: seq<string>)
    requires Messages(ops) == a + b
    ensures |a| <= |ops| && a == Messages(ops[..|a|])
  {
    assert |Messages(ops)| == |ops|;
    forall i | 0 <= i < |a| ensures a[i] == Message(ops[i]) { assert (a + b)[i] == a[i]; }
  }

  lemma MessagesSplit(ops: seq<Op>)
    ensures Lines(Join(Messages(ops))) == Messages(ops) && Rest(Join(Messages(ops))) == ""
  {
    forall l | l in Messages(ops) ensures OneLine(l) {
      var i :| 0 <= i < |ops| && Messages(ops)[i] == l;
      MessageIsOneLine(ops[i]);
    }
    assert Join(Messages(ops)) + "" == Join(Messages(ops));
    LinesAreTheOnlySplit(Messages(ops), "");
  }

  lemma PrefixCuts(ops: seq<Op>, got: string, more: string)
    requires got + more == Script(ops)
    ensures Messages(ops) == Lines(got) + Lines(Rest(got) + more)
  {
    MessagesSplit(ops);
    CuttingIsIncremental(got, more);
  }

  /** However much of the stream has arrived, the lines cut from it are its first messages, whole. */
  lemma PrefixLinesAreMessages(ops: seq<Op>, got: string, more: string)
    requires got + more == Script(ops)
    ensures |Lines(got)| <= |ops| && Lines(got) == Messages(ops[..|Lines(got)|])
  {
    PrefixCuts(ops, got, more);
    MessagesOfPrefix(ops, Lines(got), Lines(Rest(got) + more));
  }

  /** Of the first `n` characters written for `ops` the first `k` messages are whole and no more. */
  predicate WholeMessages(ops: seq<Op>, n: nat, k: nat) {
    k <= |ops| && |Script(ops[..k])| <= n && (k < |ops| ==> n < |Script(ops[..k + 1])|)
  }

  lemma ScriptPrefix(ops: seq<Op>, k: nat)
    requires k <= |ops|
    ensures Script(ops) == Script(ops[..k]) + Script(ops[k..])
  {
    ScriptAppend(ops[..k], ops[k..]);
    assert ops[..k] + ops[k..] == ops;
  }

  lemma LinesOfMore(ops: seq<Op>, k: nat, got: string)
    requires k <= |ops| && |Script(ops[..k])| <= |got| && got <= Script(ops)
    ensures |Lines(got)| >= k
  {
    var first := Script(ops[..k]);
    ScriptPrefix(ops, k);
    assert got == first + got[|first|..];
    MessagesSplit(ops[..k]);
    CuttingIsIncremental(first, got[|first|..]);
  }

  lemma LinesAreWholeMessages(ops: seq<Op>, got: string)
    requires got <= Script(ops)
    ensures var k := |Lines(got)|; WholeMessages(ops, |got|, k) && Lines(got) == Messages(ops[..k])
  {
    var k := |Lines(got)|;
    assert got + Script(ops)[|got|..] == Script(ops);
    PrefixLinesAreMessages(ops, got, Script(ops)[|got|..]);
    LinesAndRestRebuild(got);
    assert |Script(ops[..k])| <= |got|;
    if k < |ops| && |Script(ops[..k + 1])| <= |got| {
      LinesOfMore(ops, k + 1, got);
    }
  }

  // ---------- ASCII chunks ----------

  function Ascii(bytes: Bytes): string {
    seq(|bytes|, i requires 0 <= i < |bytes| => if bytes[i] < 128 then bytes[i] as char else '?')
  }

  predicate IsAscii(bytes: Bytes) {
    forall i :: 0 <= i < |bytes| ==> bytes[i] < 128
  }

  predicate IsAsciiText(text: string) {
    forall i :: 0 <= i < |text| ==> text[i] < 128 as char
  }

  function Encode(text: string): Bytes
    requires IsAsciiText(text)
  {
    seq(|text|, i requires 0 <= i < |text| => text[i] as Byte)
  }

  lemma EncodeThenAscii(text: string, n: nat)
    requires IsAsciiText(text) && n <= |text|
    ensures IsAscii(Encode(text)[..n]) && Ascii(Encode(text)[..n]) == text[..n]
  {
  }

  /** A decoder that reads ASCII as such. */
  ghost predicate ReadsAscii(utf8: Bytes -> Option<string>) {
    forall b: Bytes :: IsAscii(b) ==> utf8(b) == Some(Ascii(b))
  }

  function Reads(chunks: seq<Bytes>): seq<Read> {
    seq(|chunks|, i requires 0 <= i < |chunks| => Data(chunks[i]))
  }

  lemma AsciiSum(a: Bytes, b: Bytes)
    requires IsAscii(a + b)
    ensures IsAscii(a) && IsAscii(b) && Ascii(a + b) == Ascii(a) + Ascii(b)
  {
    forall i | 0 <= i < |a| ensures a[i] < 128 { assert (a + b)[i] == a[i]; }
    forall i | 0 <= i < |b| ensures b[i] < 128 { assert (a + b)[|a| + i] == b[i]; }
  }

  lemma ReadsHead(chunks: seq<Bytes>)
    requires chunks != []
    ensures Reads(chunks)[0] == Data(chunks[0]) && Reads(chunks)[1..] == Reads(chunks[1..])
  {
  }

  /** For ASCII bytes every split into non-empty reads delivers the same text: that of the bytes in a row. */
  lemma {:induction false} EverySplitIsReceived(utf8: Bytes -> Option<string>, chunks: seq<Bytes>)
    requires ReadsAscii(utf8)
    requires IsAscii(Concat(chunks)) && forall c :: c in chunks ==> c != []
    ensures Received(utf8, Reads(chunks)) == Ascii(Concat(chunks))
    decreases |chunks|
  {
    if chunks != [] {
      var first, others := chunks[0], Concat(chunks[1..]);
      AsciiSum(first, others);
      assert forall c :: c in chunks[1..] ==> c in chunks;
      EverySplitIsReceived(utf8, chunks[1..]);
      ReadsHead(chunks);
      assert first in chunks;
    }
  }

  // ---------- From the host's ops to the guest's signals ----------

  lemma MessageIsAscii(op: Op)
    ensures IsAsciiText(Message(op) + "\n")
  {
  }

  lemma {:induction false} ScriptIsAscii(ops: seq<Op>)
    ensures IsAsciiText(Script(ops))
    decreases |ops|
  {
    if ops != [] {
      var n := |ops| - 1;
      ScriptIsAscii(ops[..n]);
      assert ops == ops[..n] + [ops[n]];
      ScriptGrows(ops[..n], ops[n]);
      MessageIsAscii(ops[n]);
    }
  }

  /** The bytes the host writes for `ops`. */
  function Wire(ops: seq<Op>): Bytes {
    ScriptIsAscii(ops);
    Encode(Script(ops))
  }

  lemma WireGrows(ops: seq<Op>, op: Op)
    requires IsAsciiText(Message(op) + "\n")
    ensures Wire(ops + [op]) == Wire(ops) + Encode(Message(op) + "\n")
  {
    ScriptGrows(ops, op);
    ScriptIsAscii(ops);
    ScriptIsAscii(ops + [op]);
  }

  /** One more op: a wire that carries `ops` then carries `ops` and it. */
  method WriteControl(sent: Bytes, op: Op) returns (wire: Bytes)
    ensures forall ops :: sent == Wire(ops) ==> wire == Wire(ops + [op])
    ensures IsAsciiText(Message(op) + "\n") && wire == sent + Encode(Message(op) + "\n")
  {
    MessageIsAscii(op);
    wire := sent + Encode(Message(op) + "\n");
    forall ops | sent == Wire(ops) ensures wire == Wire(ops + [op]) {
      WireGrows(ops, op);
    }
  }

  /** One message after the other: the wire carries exactly the ops written, in order. */
  method HostWrites(ops: seq<Op>) returns (wire: Bytes)
    ensures wire == Wire(ops)
  {
    wire := [];
    for i := 0 to |ops|
      invariant wire == Wire(ops[..i])
    {
      wire := WriteControl(wire, ops[i]);
      assert ops[..i + 1] == ops[..i] + [ops[i]];
    }
    assert ops[..|ops|] == ops;
  }

  /** What of the host's bytes arrives, split in any way, is received as the text it encodes. */
  lemma WireIsReceived(utf8: Bytes -> Option<string>, ops: seq<Op>, n: nat, chunks: seq<Bytes>)
    requires ReadsAscii(utf8) && n <= |Wire(ops)|
    requires Concat(chunks) == Wire(ops)[..n] && forall c :: c in chunks ==> c != []
    ensures Received(utf8, Reads(chunks)) == Script(ops)[..n]
  {
    ScriptIsAscii(ops);
    EncodeThenAscii(Script(ops), n);
    EverySplitIsReceived(utf8, chunks);
  }

  /** A whole run of the guest's loop, from an empty buffer. */
  method ControlLoop(utf8: Bytes -> Option<string>, opOf: string -> Option<string>, input: seq<Read>)
    returns (sent: seq<Signal>, buf: string)
    ensures sent == SignalsOfLines(opOf, Lines(Received(utf8, input))) && buf == Rest(Received(utf8, input))
  {
    var guest := new Guest(utf8, opOf);
    guest.Run(input);
    assert "" + Received(utf8, input) == Received(utf8, input);
    return guest.sent, guest.buf;
  }

  /**
    The host writes `ops`, the first `n` bytes arrive, split into reads in any way. The guest signals exactly the ops
    whose messages arrived whole, in order; when everything arrived, all of them, and nothing is left in its buffer.
  */
  method OpsReachTheGuest(utf8: Bytes -> Option<string>, opOf: string -> Option<string>, ops: seq<Op>, n: nat,
                          chunks: seq<Bytes>)
    returns (sent: seq<Signal>, buf: string, ghost k: nat)
    requires ReadsMessages(opOf) && ReadsAscii(utf8) && n <= |Wire(ops)|
    requires Concat(chunks) == Wire(ops)[..n] && forall c :: c in chunks ==> c != []
    ensures WholeMessages(ops, n, k) && sent == SignalsOfOps(ops[..k])
    ensures n == |Wire(ops)| ==> sent == SignalsOfOps(ops) && buf == ""
  {
    sent, buf := ControlLoop(utf8, opOf, Reads(chunks));
    WireIsReceived(utf8, ops, n, chunks);
    k := |Lines(Script(ops)[..n])|;
    LinesAreWholeMessages(ops, Script(ops)[..n]);
    MessagesSignal(opOf, ops[..k]);
    if n == |Wire(ops)| {
      assert Script(ops)[..n] == Script(ops) && ops[..|ops|] == ops;
      MessagesSplit(ops);
    }
  }
}

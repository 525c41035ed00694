/**
  The transcript encoder: one serialised envelope per event, numbered from zero, each
  line redacted and flushed on its own.
*/
module Encoding {
  import opened Sequences
  import opened Wrappers
  import opened Redaction

  /** What one line becomes: the one-pass redaction of the line, whatever came before it. */
  function Sanitised(ps: Patterns, names: seq<Bytes>, line: Bytes): Bytes
    requires |names| == |ps|
  {
    ScanAccounts(ps, line);
    Render(names, Scan(ps, line))
  }

  /** All lines of a transcript whose events serialise as `bodies`, numbered from zero. */
  function Transcript(ps: Patterns, names: seq<Bytes>, bodies: seq<nat -> Bytes>): Bytes
    requires |names| == |ps|
  {
    if bodies == [] then []
    else
      var n := |bodies| - 1;
      Transcript(ps, names, bodies[..n]) + Sanitised(ps, names, bodies[n](n))
  }

  lemma TranscriptGrows(ps: Patterns, names: seq<Bytes>, bodies: seq<nat -> Bytes>, body: nat -> Bytes)
    requires |names| == |ps|
    ensures Transcript(ps, names, bodies + [body])
            == Transcript(ps, names, bodies) + Sanitised(ps, names, body(|bodies|))
  {
    var more, n := bodies + [body], |bodies|;
    TakeBack(bodies, body);
    assert Transcript(ps, names, more) == Transcript(ps, names, more[..n]) + Sanitised(ps, names, more[n](n));
  }

  lemma TakeBack<T>(s: seq<T>, x: T)
    ensures (s + [x])[..|s|] == s && (s + [x])[|s|] == x && |s + [x]| == |s| + 1
  {
  }

  /** Redacting a line and flushing at once is the one-pass redaction, for every secret set. */
  lemma RedactThenFlushIsSanitised(ps: Patterns, names: seq<Bytes>, line: Bytes)
    requires |names| == |ps|
    ensures Named(names, Emit(ps, line))
    ensures Render(names, Emit(ps, line)) + Held(ps, line) == Sanitised(ps, names, line)
  {
    EmitThenHeldIsScan(ps, line);
    EmitAccounts(ps, line);
    RenderRaw(names, Held(ps, line));
    RenderAppend(names, Emit(ps, line), RawAll(Held(ps, line)));
  }

  method RedactLine(redactor: Redactor, line: Bytes) returns (redacted: Bytes, pending: Bytes)
    requires redactor.Valid() && redactor.pending == []
    modifies redactor`pending
    ensures redactor.Valid() && redactor.pending == []
    ensures redacted + pending == Sanitised(redactor.patterns, redactor.names, line)
  {
    assert redactor.pending + line == line;
    redacted := redactor.Redact(line);
    pending := redactor.Flush();
    RedactThenFlushIsSanitised(redactor.patterns, redactor.names, line);
  }

  class Encoder {
    const redactor: Redactor
    var seqNo: nat
    var transcript: Bytes
    var stdout: Bytes
    ghost var emitted: seq<nat -> Bytes>

    /** Both outputs hold every line emitted so far, numbered in order, and nothing is carried over. */
    ghost predicate Valid()
      reads this, redactor
    {
      && redactor.Valid() && redactor.pending == []
      && seqNo == |emitted|
      && transcript == Transcript(redactor.patterns, redactor.names, emitted)
      && stdout == transcript
    }

    constructor (redactor: Redactor)
      requires redactor.Valid() && redactor.pending == []
      ensures Valid() && this.redactor == redactor && emitted == []
    {
      this.redactor := redactor;
      seqNo, transcript, stdout, emitted := 0, [], [], [];
    }

    /** `body` is the serialised envelope as a function of its sequence number. */
    method Emit(body: nat -> Bytes)
      requires Valid()
      modifies this, redactor
      ensures Valid() && emitted == old(emitted) + [body]
      ensures transcript == old(transcript) + Sanitised(redactor.patterns, redactor.names, body(old(seqNo)))
    {
      var line := body(seqNo);
      TranscriptGrows(redactor.patterns, redactor.names, emitted, body);
      var redacted, pending := RedactLine(redactor, line);
      AppendAssoc(transcript, redacted, pending);
      seqNo, emitted := seqNo + 1, emitted + [body];
      transcript := transcript + redacted + pending;
      stdout := stdout + redacted + pending;
    }
  }
}

/** Refusing a DNS query: the reply, what it parses to, and when a denial is reported. */
module DnsRefusal {
  import opened Bits
  import opened DnsGrammar
  import opened DnsMessage
  import opened Egress
  import opened Wrappers

  const FLAG_QR: nat := 0x8000
  const FLAGS_PRESERVE_FROM_QUERY: nat := 0x7900
  const RCODE_REFUSED: nat := 5

  // ---------- The reply ----------

  function ReplyFlags(flags: nat): nat {
    Or(Or(And(flags, FLAGS_PRESERVE_FROM_QUERY), FLAG_QR), RCODE_REFUSED)
  }

  function ReplyHeader(h: Header): Header {
    Header(h.id, ReplyFlags(h.flags), h.qdcount, 0, 0, 0)
  }

  lemma MaskBits(k: nat)
    requires k < 16
    ensures Bit(FLAGS_PRESERVE_FROM_QUERY, k) == (if k == 8 || 11 <= k <= 14 then 1 else 0)
    ensures Bit(FLAG_QR, k) == (if k == 15 then 1 else 0)
    ensures Bit(RCODE_REFUSED, k) == (if k == 0 || k == 2 then 1 else 0)
  {
    assert Pow2(8) == 256 by { Pow2Of16(); }
    assert Pow2(15) == 0x8000 by { Pow2Of16(); }
    ShiftedBits(0x79, 8, k);
    ShiftedBits(1, 15, k);
    if k >= 8 {
      BitsOf0x79(k - 8);
    }
    SmallBits(k);
  }

  lemma BitsOf0x79(k: nat)
    requires k < 8
    ensures Bit(0x79, k) == (if k == 0 || 3 <= k <= 6 then 1 else 0)
  {
    assert Bit(0x79, 0) == Bit(0x79, 3) == Bit(0x79, 4) == Bit(0x79, 5) == Bit(0x79, 6) == 1;
    assert Bit(0x79, 1) == Bit(0x79, 2) == Bit(0x79, 7) == 0;
  }

  lemma SmallBits(k: nat)
    ensures Bit(5, k) == (if k == 0 || k == 2 then 1 else 0) && Bit(1, k) == (if k == 0 then 1 else 0)
  {
    assert Bit(5, 1) == 0 && Bit(5, 2) == 1;
    if k >= 3 {
      assert Bit(5, k) == Bit(2, k - 1) == Bit(1, k - 2) == Bit(0, k - 3);
      ZeroHasNoBits(k - 3);
    }
    if k >= 1 {
      ZeroHasNoBits(k - 1);
    }
  }

  /**
    Bit by bit, in the layout of section 4.1.1 of RFC 1035: QR (15) is set, OPCODE (14 to 11) and RD (8) are the
    query's, AA (10), TC (9), RA (7) and Z (6 to 4) are clear, and RCODE (3 to 0) is 5.
  */
  lemma ReplyFlagBits(flags: nat, k: nat)
    requires k < 16
    ensures Bit(ReplyFlags(flags), k)
            == if k == 15 || k == 2 || k == 0 then 1
               else if k == 8 || 11 <= k <= 14 then Bit(flags, k)
               else 0
  {
    var kept := And(flags, FLAGS_PRESERVE_FROM_QUERY);
    MaskBits(k);
    AndBits(flags, FLAGS_PRESERVE_FROM_QUERY, k);
    OrBits(kept, FLAG_QR, k);
    OrBits(Or(kept, FLAG_QR), RCODE_REFUSED, k);
  }

  lemma ReplyFlagsFit(flags: nat)
    requires flags < 0x1_0000
    ensures ReplyFlags(flags) < 0x1_0000
  {
    var kept := And(flags, FLAGS_PRESERVE_FROM_QUERY);
    Pow2Of16();
    AndBound(flags, FLAGS_PRESERVE_FROM_QUERY, 16);
    OrBound(kept, FLAG_QR, 16);
    OrBound(Or(kept, FLAG_QR), RCODE_REFUSED, 16);
  }

  lemma ReplyFlagsAreStable(flags: nat)
    requires flags < 0x1_0000
    ensures ReplyFlags(ReplyFlags(flags)) == ReplyFlags(flags)
  {
    var once := ReplyFlags(flags);
    ReplyFlagsFit(flags);
    ReplyFlagsFit(once);
    Pow2Of16();
    forall k: nat | k < 16 ensures Bit(ReplyFlags(once), k) == Bit(once, k) {
      ReplyFlagBits(flags, k);
      ReplyFlagBits(once, k);
    }
    BitsDetermine(ReplyFlags(once), once, 16);
  }

  lemma ParsedInBounds(bytes: Bytes)
    requires Parse(bytes).Ok?
    ensures var q := Parse(bytes).value;
            ValidHeader(q.header) && ValidHeader(ReplyHeader(q.header)) && HEADER_LEN <= q.questionSectionEnd <= |bytes|
  {
    var q := Parse(bytes).value;
    var qs := AcceptedIsMessage(bytes, q);
    ReplyFlagsFit(q.header.flags);
  }

  function Refused(bytes: Bytes): Result<Bytes, ParseError> {
    match Parse(bytes)
    case Err(e) => Err(e)
    case Ok(q) =>
      ParsedInBounds(bytes);
      Ok(EncodeHeader(ReplyHeader(q.header)) + bytes[HEADER_LEN..q.questionSectionEnd])
  }

  method BuildRefusedResponse(bytes: Bytes) returns (r: Result<Bytes, ParseError>)
    ensures r == Refused(bytes)
    ensures r.Ok? <==> Parse(bytes).Ok?
    ensures r.Ok? ==> IsRefusalOf(bytes, r.value)
  {
    if Parse(bytes).Ok? {
      RefusalParsesBack(bytes);
    }
    var parsed := ParseDnsQuery(bytes);
    if parsed.Err? {
      return Err(parsed.error);
    }
    var query := parsed.value;
    ParsedInBounds(bytes);
    var out := EncodeU16(query.header.id);
    var replyFlags := Or(Or(And(query.header.flags, FLAGS_PRESERVE_FROM_QUERY), FLAG_QR), RCODE_REFUSED);
    out := out + EncodeU16(replyFlags);
    out := out + EncodeU16(query.header.qdcount);
    out := out + EncodeU16(0);
    out := out + EncodeU16(0);
    out := out + EncodeU16(0);
    out := out + bytes[HEADER_LEN..query.questionSectionEnd];
    return Ok(out);
  }

  lemma RefusedIsMessage(bytes: Bytes, q: Query) returns (qs: seq<WireQuestion>)
    requires Parse(bytes) == Ok(q)
    ensures ValidMessage(ReplyHeader(q.header), qs) && Refused(bytes) == Ok(Encode(ReplyHeader(q.header), qs))
    ensures q.questions == DecodedAll(qs)
  {
    qs := AcceptedIsMessage(bytes, q);
    ReplyFlagsFit(q.header.flags);
    AtSplit(bytes, 0, EncodeHeader(q.header), EncodeQuestions(qs));
  }

  /** The reply's flags against the query's, in the layout of section 4.1.1 of RFC 1035. */
  ghost predicate RefusesFlags(query: nat, reply: nat) {
    forall k: nat :: k < 16 ==>
      Bit(reply, k) == if k == 15 || k == 2 || k == 0 then 1 else if k == 8 || 11 <= k <= 14 then Bit(query, k) else 0
  }

  /**
    `reply` has the query's question section octet for octet, parses to the query's id and questions and to no other
    records, and is a refusal by its flags.
  */
  ghost predicate IsRefusalOf(bytes: Bytes, reply: Bytes) {
    && Parse(bytes).Ok? && Parse(reply).Ok?
    && var q, r := Parse(bytes).value, Parse(reply).value;
       && r.header.id == q.header.id && RefusesFlags(q.header.flags, r.header.flags)
       && r.header.qdcount == q.header.qdcount
       && r.header.ancount == 0 && r.header.nscount == 0 && r.header.arcount == 0
       && r.questions == q.questions && r.questionSectionEnd == |reply|
       && 12 <= q.questionSectionEnd <= |bytes| && 12 <= |reply| && reply[12..] == bytes[12..q.questionSectionEnd]
  }

  /**
    The refusal of any query parses again: to the same id and questions, with no other records and nothing after the
    question section. Refusing the refusal gives it back.
  */
  lemma RefusalParsesBack(bytes: Bytes)
    requires Parse(bytes).Ok?
    ensures Refused(bytes).Ok? && IsRefusalOf(bytes, Refused(bytes).value)
    ensures Refused(Refused(bytes).value) == Refused(bytes)
  {
    var q := Parse(bytes).value;
    var qs := RefusedIsMessage(bytes, q);
    var reply := Encode(ReplyHeader(q.header), qs);
    assert reply + [] == reply;
    EncodeThenParse(ReplyHeader(q.header), qs, []);
    assert Parse(reply) == Ok(Query(ReplyHeader(q.header), q.questions, |reply|));
    forall k: nat | k < 16
      ensures Bit(ReplyFlags(q.header.flags), k)
              == if k == 15 || k == 2 || k == 0 then 1
                 else if k == 8 || 11 <= k <= 14 then Bit(q.header.flags, k)
                 else 0
    {
      ReplyFlagBits(q.header.flags, k);
    }
    ReplyFlagsAreStable(q.header.flags);
    ParsedInBounds(bytes);
    assert reply[HEADER_LEN..|reply|] == EncodeQuestions(qs);
  }

  // ---------- Deciding ----------

  datatype DenialEvent = DenialEvent(destination: string, qtype: nat)

  /** What would be reported if no question were off the allowlist. */
  const NO_NAME := DenialEvent("", 0)

  datatype Outcome = Reply(bytes: Bytes) | NoReply

  predicate Allowed(allowed: seq<Host>, q: Question) {
    Norm(q.name) in allowed
  }

  predicate AllAllowed(allowed: seq<Host>, qs: seq<Question>) {
    forall i :: 0 <= i < |qs| ==> Allowed(allowed, qs[i])
  }

  method EvaluateDnsQuery(query: Query, policy: EgressPolicy) returns (allow: bool)
    ensures allow <==> AllAllowed(policy.allowed, query.questions)
  {
    for i := 0 to |query.questions|
      invariant forall j :: 0 <= j < i ==> Allowed(policy.allowed, query.questions[j])
    {
      var yes := policy.Allows(query.questions[i].name);
      if !yes {
        return false;
      }
    }
    return true;
  }

  /** Whether `denial` names the first question off the allowlist. */
  ghost predicate NamesFirstDenied(allowed: seq<Host>, qs: seq<Question>, denial: DenialEvent) {
    exists i ::
      && 0 <= i < |qs| && !Allowed(allowed, qs[i]) && denial == DenialEvent(qs[i].name, qs[i].qtype)
      && AllAllowed(allowed, qs[..i])
  }

  method FirstDenied(query: Query, policy: EgressPolicy) returns (found: Option<DenialEvent>)
    ensures found.None? ==> AllAllowed(policy.allowed, query.questions)
    ensures found.Some? ==> NamesFirstDenied(policy.allowed, query.questions, found.value)
  {
    for i := 0 to |query.questions|
      invariant forall j :: 0 <= j < i ==> Allowed(policy.allowed, query.questions[j])
    {
      var q := query.questions[i];
      var yes := policy.Allows(q.name);
      if !yes {
        assert AllAllowed(policy.allowed, query.questions[..i]);
        return Some(DenialEvent(q.name, q.qtype));
      }
    }
    return None;
  }

  /**
    One datagram. A denial is offered exactly when it parses and some question is off the allowlist; it then names the
    first such question, and a refusal is sent. Otherwise an accepted query is answered with what the upstream said.
  */
  method HandleDnsQuery(bytes: Bytes, policy: EgressPolicy, upstream: Option<Bytes>)
    returns (outcome: Outcome, denial: Option<DenialEvent>)
    ensures denial.Some? <==> Parse(bytes).Ok? && !AllAllowed(policy.allowed, Parse(bytes).value.questions)
    ensures denial.Some? ==> NamesFirstDenied(policy.allowed, Parse(bytes).value.questions, denial.value)
    ensures denial.Some? ==> Refused(bytes).Ok? && outcome == Reply(Refused(bytes).value)
    ensures denial.Some? ==> outcome.Reply? && IsRefusalOf(bytes, outcome.bytes)
    ensures Parse(bytes).Err? ==> outcome == NoReply
    ensures Parse(bytes).Ok? && denial.None? ==> outcome == if upstream.Some? then Reply(upstream.value) else NoReply
  {
    var parsed := ParseDnsQuery(bytes);
    if parsed.Err? {
      return NoReply, None;
    }
    var allow := EvaluateDnsQuery(parsed.value, policy);
    if allow {
      if upstream.Some? {
        return Reply(upstream.value), None;
      }
      return NoReply, None;
    }
    var first := FirstDenied(parsed.value, policy);
    denial := Some(if first.Some? then first.value else NO_NAME);
    var refusal := BuildRefusedResponse(bytes);
    if refusal.Err? {
      return NoReply, denial;
    }
    outcome := Reply(refusal.value);
  }
}

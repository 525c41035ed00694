/**
  DNS queries on the wire, sections 2.3.4, 4.1.1 and 4.1.2 of RFC 1035: what the parser accepts, name by
  name and question by question, and the grammar it accepts.
*/
module DnsMessage {
  import opened Bits
  import opened Sequences
  import opened Text
  import opened Wrappers

  datatype ParseError = TruncatedHeader | NoQuestion | TruncatedQuestion | InvalidLabel | LabelTooLong | NameTooLong

  datatype Header = Header(id: nat, flags: nat, qdcount: nat, ancount: nat, nscount: nat, arcount: nat)

  datatype Question = Question(name: string, qtype: nat, qclass: nat)

  datatype Query = Query(header: Header, questions: seq<Question>, questionSectionEnd: nat)

  const MAX_NAME: nat := 255
  const HEADER_LEN: nat := 12

  function U16(bytes: Bytes, at: nat): (n: nat)
    requires at + 2 <= |bytes|
    ensures n < 0x1_0000
  {
    bytes[at] as nat * 256 + bytes[at + 1] as nat
  }

  /** The reserved and pointer forms of a length byte. */
  predicate ReservedForm(length: nat) {
    And(length, 0xC0) != 0
  }

  // ---------- The parser, as functions ----------

  function LowerLabel(octets: Bytes): string {
    seq(|octets|, i requires 0 <= i < |octets| => LowerChar(octets[i] as char))
  }

  function Extended(name: string, octets: Bytes): string {
    (if name == "" then name else name + ".") + LowerLabel(octets)
  }

  function QName(bytes: Bytes, offset: nat, name: string, total: nat): Result<(string, nat), ParseError>
    decreases |bytes| - offset
  {
    if offset >= |bytes| then Err(TruncatedQuestion)
    else
      var length := bytes[offset] as nat;
      if ReservedForm(length) then Err(InvalidLabel)
      else if length == 0 then Ok((name, offset + 1))
      else if length > 63 then Err(LabelTooLong)
      else if offset + 1 + length > |bytes| then Err(TruncatedQuestion)
      else if total + length + 1 > MAX_NAME then Err(NameTooLong)
      else
        QName(bytes, offset + 1 + length, Extended(name, bytes[offset + 1..offset + 1 + length]), total + length + 1)
  }

  function OneQuestion(bytes: Bytes, offset: nat): Result<(Question, nat), ParseError> {
    match QName(bytes, offset, "", 0)
    case Err(e) => Err(e)
    case Ok((name, end)) =>
      if end + 4 > |bytes| then Err(TruncatedQuestion)
      else Ok((Question(name, U16(bytes, end), U16(bytes, end + 2)), end + 4))
  }

  function Questions(bytes: Bytes, offset: nat, n: nat): Result<(seq<Question>, nat), ParseError>
    decreases n
  {
    if n == 0 then Ok(([], offset))
    else
      match OneQuestion(bytes, offset)
      case Err(e) => Err(e)
      case Ok((q, next)) => Prepend([q], Questions(bytes, next, n - 1))
  }

  function Prepend(done: seq<Question>, r: Result<(seq<Question>, nat), ParseError>)
    : Result<(seq<Question>, nat), ParseError>
  {
    match r
    case Err(e) => Err(e)
    case Ok((qs, end)) => Ok((done + qs, end))
  }

  function HeaderOf(bytes: Bytes): Header
    requires |bytes| >= HEADER_LEN
  {
    Header(U16(bytes, 0), U16(bytes, 2), U16(bytes, 4), U16(bytes, 6), U16(bytes, 8), U16(bytes, 10))
  }

  function Parse(bytes: Bytes): Result<Query, ParseError> {
    if |bytes| < HEADER_LEN then Err(TruncatedHeader)
    else
      var header := HeaderOf(bytes);
      if header.qdcount == 0 then Err(NoQuestion)
      else
        match Questions(bytes, HEADER_LEN, header.qdcount)
        case Err(e) => Err(e)
        case Ok((questions, end)) => Ok(Query(header, questions, end))
  }

  // ---------- The parser itself ----------

  method AppendLabel(start: string, octets: Bytes) returns (name: string)
    ensures name == Extended(start, octets)
  {
    name := start;
    if name != "" {
      name := name + ".";
    }
    ghost var dotted := name;
    for i := 0 to |octets|
      invariant name == dotted + LowerLabel(octets[..i])
    {
      name := name + [LowerChar(octets[i] as char)];
      assert LowerLabel(octets[..i + 1]) == LowerLabel(octets[..i]) + [LowerChar(octets[i] as char)];
    }
    assert octets[..|octets|] == octets;
  }

  lemma QNameContinues(bytes: Bytes, offset: nat, name: string, total: nat)
    requires offset < |bytes|
    requires var length := bytes[offset] as nat;
             1 <= length <= 63 && offset + 1 + length <= |bytes| && total + length + 1 <= MAX_NAME
    ensures var length := bytes[offset] as nat;
            QName(bytes, offset, name, total)
            == QName(bytes, offset + 1 + length, Extended(name, bytes[offset + 1..offset + 1 + length]), total + length
              + 1)
  {
    ReservedExactlyFrom64(bytes[offset] as nat);
  }

  method ParseQname(bytes: Bytes, start: nat) returns (r: Result<(string, nat), ParseError>)
    ensures r == QName(bytes, start, "", 0)
  {
    var offset: nat, name: string, totalLen: nat := start, "", 0;
    while true
      invariant QName(bytes, offset, name, totalLen) == QName(bytes, start, "", 0)
      decreases |bytes| - offset
    {
      if offset >= |bytes| {
        return Err(TruncatedQuestion);
      }
      var labelLen := bytes[offset] as nat;
      if ReservedForm(labelLen) {
        return Err(InvalidLabel);
      }
      offset := offset + 1;
      if labelLen == 0 {
        return Ok((name, offset));
      }
      if labelLen > 63 {
        return Err(LabelTooLong);
      }
      if offset + labelLen > |bytes| {
        return Err(TruncatedQuestion);
      }
      totalLen := totalLen + labelLen + 1;
      if totalLen > MAX_NAME {
        return Err(NameTooLong);
      }
      QNameContinues(bytes, offset - 1, name, totalLen - labelLen - 1);
      name := AppendLabel(name, bytes[offset..offset + labelLen]);
      offset := offset + labelLen;
    }
  }

  /** The body of the question loop: a name, and two numbers after it. */
  method ParseQuestion(bytes: Bytes, offset: nat) returns (r: Result<(Question, nat), ParseError>)
    ensures r == OneQuestion(bytes, offset)
  {
    var parsed := ParseQname(bytes, offset);
    if parsed.Err? {
      return Err(parsed.error);
    }
    var (name, newOffset) := parsed.value;
    if newOffset + 4 > |bytes| {
      return Err(TruncatedQuestion);
    }
    return Ok((Question(name, U16(bytes, newOffset), U16(bytes, newOffset + 2)), newOffset + 4));
  }

  method ParseDnsQuery(bytes: Bytes) returns (r: Result<Query, ParseError>)
    ensures r == Parse(bytes)
  {
    if |bytes| < HEADER_LEN {
      return Err(TruncatedHeader);
    }
    var header := Header(U16(bytes, 0), U16(bytes, 2), U16(bytes, 4), U16(bytes, 6), U16(bytes, 8), U16(bytes, 10));
    if header.qdcount == 0 {
      return Err(NoQuestion);
    }
    var offset: nat, questions: seq<Question> := HEADER_LEN, [];
    ghost var all := Questions(bytes, HEADER_LEN, header.qdcount);
    PrependNothing(all);
    for i := 0 to header.qdcount
      invariant Prepend(questions, Questions(bytes, offset, header.qdcount - i)) == all
    {
      var parsed := ParseQuestion(bytes, offset);
      if parsed.Err? {
        return Err(parsed.error);
      }
      var (question, next) := parsed.value;
      PrependOne(questions, question, Questions(bytes, next, header.qdcount - i - 1));
      questions := questions + [question];
      offset := next;
    }
    assert questions + [] == questions;
    return Ok(Query(header, questions, offset));
  }

  lemma PrependNothing(r: Result<(seq<Question>, nat), ParseError>)
    ensures Prepend([], r) == r
  {
    if r.Ok? {
      assert [] + r.value.0 == r.value.0;
    }
  }

  lemma PrependOne(done: seq<Question>, q: Question, r: Result<(seq<Question>, nat), ParseError>)
    ensures Prepend(done, Prepend([q], r)) == Prepend(done + [q], r)
  {
    if r.Ok? {
      AppendAssoc(done, [q], r.value.0);
    }
  }

  // ---------- The grammar ----------

  type Label = b: Bytes | 1 <= |b| <= 63 witness [0]

  datatype WireQuestion = WireQuestion(labels: seq<Label>, qtype: nat, qclass: nat)

  function EncodeLabel(octets: Label): Bytes {
    [|octets| as Byte] + octets
  }

  /** A name on the wire: length-prefixed labels and the root byte. */
  function EncodeName(labels: seq<Label>): Bytes {
    if labels == [] then [0] else EncodeLabel(labels[0]) + EncodeName(labels[1..])
  }

  function EncodeU16(n: nat): Bytes
    requires n < 0x1_0000
  {
    [(n / 256) as Byte, (n % 256) as Byte]
  }

  /** What the code bounds by 255: every label with its length byte, without the root byte. */
  function LabelsLen(labels: seq<Label>): nat {
    if labels == [] then 0 else |labels[0]| + 1 + LabelsLen(labels[1..])
  }

  predicate ValidQuestion(q: WireQuestion) {
    LabelsLen(q.labels) <= MAX_NAME && q.qtype < 0x1_0000 && q.qclass < 0x1_0000
  }

  predicate ValidQuestions(qs: seq<WireQuestion>) {
    forall i :: 0 <= i < |qs| ==> ValidQuestion(qs[i])
  }

  function EncodeQuestion(q: WireQuestion): Bytes
    requires ValidQuestion(q)
  {
    EncodeName(q.labels) + EncodeU16(q.qtype) + EncodeU16(q.qclass)
  }

  function EncodeQuestions(qs: seq<WireQuestion>): Bytes
    requires ValidQuestions(qs)
  {
    if qs == [] then [] else EncodeQuestion(qs[0]) + EncodeQuestions(qs[1..])
  }

  predicate ValidHeader(h: Header) {
    h.id < 0x1_0000 && h.flags < 0x1_0000 && h.qdcount < 0x1_0000 && h.ancount < 0x1_0000 && h.nscount < 0x1_0000
    && h.arcount < 0x1_0000
  }

  function EncodeHeader(h: Header): (bytes: Bytes)
    requires ValidHeader(h)
    ensures |bytes| == HEADER_LEN
  {
    EncodeU16(h.id) + EncodeU16(h.flags) + EncodeU16(h.qdcount) + EncodeU16(h.ancount) + EncodeU16(h.nscount)
    + EncodeU16(h.arcount)
  }

  /** A name as the policy sees it: lowered labels joined by dots. */
  function Dotted(labels: seq<Label>): string {
    if labels == [] then ""
    else if |labels| == 1 then LowerLabel(labels[0])
    else LowerLabel(labels[0]) + "." + Dotted(labels[1..])
  }

  function Decoded(q: WireQuestion): Question {
    Question(Dotted(q.labels), q.qtype, q.qclass)
  }

  function DecodedAll(qs: seq<WireQuestion>): seq<Question> {
    seq(|qs|, i requires 0 <= i < |qs| => Decoded(qs[i]))
  }

  // ---------- Names ----------

  lemma ReservedExactlyFrom64(length: nat)
    requires length < 256
    ensures ReservedForm(length) <==> length >= 64
  {
    var h1 := length / 2;
    var h2 := h1 / 2;
    var h3 := h2 / 2;
    var h4 := h3 / 2;
    var h5 := h4 / 2;
    var h6 := h5 / 2;
    AndEven(length, 0x60);
    AndEven(h1, 0x30);
    AndEven(h2, 0x18);
    AndEven(h3, 0xC);
    AndEven(h4, 6);
    AndEven(h5, 3);
    assert And(length, 0xC0) == 64 * And(h6, 3);
    LowTwoBits(h6);
  }

  lemma LowTwoBits(k: nat)
    requires k < 4
    ensures And(k, 3) == k
  {
    assert And(0, 3) == 0 && And(1, 3) == 1 && And(2, 3) == 2 && And(3, 3) == 3;
  }
}

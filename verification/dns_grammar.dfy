/** The parser accepts exactly the messages that begin with an encoded header and its questions. */
module DnsGrammar {
  import opened DnsMessage
  import opened Wrappers

  /** `part` stands in `bytes` at `offset`. */
  predicate At(bytes: Bytes, offset: nat, part: Bytes) {
    offset + |part| <= |bytes| && bytes[offset..offset + |part|] == part
  }

  lemma AtSplit(bytes: Bytes, offset: nat, a: Bytes, b: Bytes)
    ensures At(bytes, offset, a + b) <==> At(bytes, offset, a) && At(bytes, offset + |a|, b)
  {
    var n, m := offset + |a|, offset + |a| + |b|;
    if m <= |bytes| {
      assert bytes[offset..m] == bytes[offset..n] + bytes[n..m];
      if bytes[offset..m] == a + b {
        assert bytes[offset..n] == bytes[offset..m][..|a|] == a;
        assert bytes[n..m] == bytes[offset..m][|a|..] == b;
      }
    }
  }

  // ---------- Names ----------

  function ExtendedAll(name: string, labels: seq<Label>): string
    decreases |labels|
  {
    if labels == [] then name else ExtendedAll(Extended(name, labels[0]), labels[1..])
  }

  lemma {:induction false} ExtendedAllIsDotted(name: string, labels: seq<Label>)
    ensures ExtendedAll(name, labels)
            == if labels == [] then name else if name == "" then Dotted(labels) else name + "." + Dotted(labels)
    decreases |labels|
  {
    if labels != [] {
      var next := Extended(name, labels[0]);
      assert |labels[0]| >= 1 && next != "";
      ExtendedAllIsDotted(next, labels[1..]);
      if labels[1..] == [] {
        assert Dotted(labels) == LowerLabel(labels[0]);
      } else {
        assert Dotted(labels) == LowerLabel(labels[0]) + "." + Dotted(labels[1..]);
      }
      if name == "" {
        assert "" + LowerLabel(labels[0]) == LowerLabel(labels[0]);
      }
    }
  }

  lemma EncodeNameHead(labels: seq<Label>)
    requires labels != []
    ensures EncodeName(labels) == [|labels[0]| as Byte] + (labels[0] + EncodeName(labels[1..]))
  {
  }

  lemma NameHeadAt(bytes: Bytes, offset: nat, labels: seq<Label>)
    requires labels != []
    ensures var length := |labels[0]|;
            At(bytes, offset, EncodeName(labels))
            <==> offset < |bytes| && bytes[offset] as nat == length && At(bytes, offset + 1, labels[0])
                 && At(bytes, offset + 1 + length, EncodeName(labels[1..]))
  {
    EncodeNameHead(labels);
    AtSplit(bytes, offset, [|labels[0]| as Byte], labels[0] + EncodeName(labels[1..]));
    AtSplit(bytes, offset + 1, labels[0], EncodeName(labels[1..]));
    if offset < |bytes| {
      assert bytes[offset..offset + 1] == [bytes[offset]];
    }
  }

  lemma RootAt(bytes: Bytes, offset: nat, name: string, total: nat)
    requires offset < |bytes|
    ensures At(bytes, offset, EncodeName([])) <==> bytes[offset] == 0
    ensures bytes[offset] == 0 ==> QName(bytes, offset, name, total) == Ok((name, offset + 1))
  {
    assert bytes[offset..offset + 1] == [bytes[offset]];
    ReservedExactlyFrom64(0);
  }

  /** What the parser read at `offset` is the encoding of `labels`. */
  predicate ReadsAs(bytes: Bytes, offset: nat, name: string, total: nat, labels: seq<Label>) {
    && At(bytes, offset, EncodeName(labels)) && total + LabelsLen(labels) <= MAX_NAME
    && QName(bytes, offset, name, total) == Ok((ExtendedAll(name, labels), offset + |EncodeName(labels)|))
  }

  lemma ReadsOneLabelMore(bytes: Bytes, offset: nat, name: string, total: nat, first: Label, rest: seq<Label>)
    requires offset < |bytes| && bytes[offset] as nat == |first| && At(bytes, offset + 1, first)
    requires QName(bytes, offset, name, total)
             == QName(bytes, offset + 1 + |first|, Extended(name, first), total + |first| + 1)
    requires ReadsAs(bytes, offset + 1 + |first|, Extended(name, first), total + |first| + 1, rest)
    ensures ReadsAs(bytes, offset, name, total, [first] + rest)
  {
    OneLabelMore(name, first, rest);
    NameHeadAt(bytes, offset, [first] + rest);
  }

  lemma TailStands(bytes: Bytes, offset: nat, first: Label, rest: seq<Label>)
    requires At(bytes, offset, EncodeName([first] + rest))
    ensures At(bytes, offset + 1 + |first|, EncodeName(rest))
  {
    NameHeadAt(bytes, offset, [first] + rest);
    assert ([first] + rest)[1..] == rest;
  }

  lemma LabelIsAccepted(bytes: Bytes, offset: nat, name: string, total: nat, first: Label, rest: seq<Label>)
    requires At(bytes, offset, EncodeName([first] + rest))
    requires ReadsAs(bytes, offset + 1 + |first|, Extended(name, first), total + |first| + 1, rest)
    ensures ReadsAs(bytes, offset, name, total, [first] + rest)
  {
    NameHeadAt(bytes, offset, [first] + rest);
    QNameContinues(bytes, offset, name, total);
    ReadsOneLabelMore(bytes, offset, name, total, first, rest);
  }

  lemma {:induction false} NameIsAccepted(bytes: Bytes, offset: nat, name: string, total: nat, labels: seq<Label>)
    requires At(bytes, offset, EncodeName(labels)) && total + LabelsLen(labels) <= MAX_NAME
    ensures ReadsAs(bytes, offset, name, total, labels)
    decreases |labels|
  {
    if labels == [] {
      RootAt(bytes, offset, name, total);
    } else {
      var first, rest := labels[0], labels[1..];
      assert labels == [first] + rest;
      TailStands(bytes, offset, first, rest);
      NameIsAccepted(bytes, offset + 1 + |first|, Extended(name, first), total + |first| + 1, rest);
      LabelIsAccepted(bytes, offset, name, total, first, rest);
    }
  }

  lemma NameIsDotted(bytes: Bytes, offset: nat, labels: seq<Label>)
    requires At(bytes, offset, EncodeName(labels)) && LabelsLen(labels) <= MAX_NAME
    ensures QName(bytes, offset, "", 0) == Ok((Dotted(labels), offset + |EncodeName(labels)|))
  {
    NameIsAccepted(bytes, offset, "", 0, labels);
    ExtendedAllIsDotted("", labels);
  }

  lemma {:induction false} AcceptedIsName(bytes: Bytes, offset: nat, name: string, total: nat)
    returns (labels: seq<Label>)
    requires QName(bytes, offset, name, total).Ok? && total <= MAX_NAME
    ensures ReadsAs(bytes, offset, name, total, labels)
    decreases |bytes| - offset
  {
    if bytes[offset] == 0 {
      labels := [];
      RootAt(bytes, offset, name, total);
    } else {
      var length, first := AcceptedIsLabel(bytes, offset, name, total);
      var rest := AcceptedIsName(bytes, offset + 1 + length, Extended(name, first), total + length + 1);
      labels := [first] + rest;
      ReadsOneLabelMore(bytes, offset, name, total, first, rest);
    }
  }

  lemma AcceptedIsLabel(bytes: Bytes, offset: nat, name: string, total: nat) returns (length: nat, first: Label)
    requires offset < |bytes| && bytes[offset] != 0 && QName(bytes, offset, name, total).Ok?
    ensures length == |first| == bytes[offset] as nat && At(bytes, offset + 1, first) && total + length + 1 <= MAX_NAME
    ensures QName(bytes, offset, name, total)
            == QName(bytes, offset + 1 + length, Extended(name, first), total + length + 1)
  {
    length := bytes[offset] as nat;
    ReservedExactlyFrom64(length);
    first := bytes[offset + 1..offset + 1 + length];
    QNameContinues(bytes, offset, name, total);
  }

  lemma OneLabelMore(name: string, first: Label, rest: seq<Label>)
    ensures var labels := [first] + rest;
            labels[1..] == rest && ExtendedAll(name, labels) == ExtendedAll(Extended(name, first), rest)
            && |EncodeName(labels)| == 1 + |first| + |EncodeName(rest)|
            && LabelsLen(labels) == |first| + 1 + LabelsLen(rest)
  {
    assert ([first] + rest)[1..] == rest;
    EncodeNameHead([first] + rest);
  }

  // ---------- Questions ----------

  lemma U16At(bytes: Bytes, at: nat, n: nat)
    requires n < 0x1_0000 && at + 2 <= |bytes|
    ensures At(bytes, at, EncodeU16(n)) <==> U16(bytes, at) == n
  {
    assert bytes[at..at + 2] == [bytes[at], bytes[at + 1]];
  }

  lemma QuestionAt(bytes: Bytes, offset: nat, q: WireQuestion)
    requires ValidQuestion(q)
    ensures var end := offset + |EncodeName(q.labels)|;
            At(bytes, offset, EncodeQuestion(q))
            <==> At(bytes, offset, EncodeName(q.labels)) && end + 4 <= |bytes|
                 && U16(bytes, end) == q.qtype && U16(bytes, end + 2) == q.qclass
    ensures |EncodeQuestion(q)| == |EncodeName(q.labels)| + 4
  {
    var name, t, c := EncodeName(q.labels), EncodeU16(q.qtype), EncodeU16(q.qclass);
    var end := offset + |name|;
    AtSplit(bytes, offset, name + t, c);
    AtSplit(bytes, offset, name, t);
    if end + 4 <= |bytes| {
      U16At(bytes, end, q.qtype);
      U16At(bytes, end + 2, q.qclass);
    }
  }

  lemma QuestionAfterName(bytes: Bytes, offset: nat, name: string, end: nat)
    requires QName(bytes, offset, "", 0) == Ok((name, end)) && end + 4 <= |bytes|
    ensures OneQuestion(bytes, offset) == Ok((Question(name, U16(bytes, end), U16(bytes, end + 2)), end + 4))
  {
  }

  lemma QuestionIsAccepted(bytes: Bytes, offset: nat, q: WireQuestion)
    requires ValidQuestion(q) && At(bytes, offset, EncodeQuestion(q))
    ensures OneQuestion(bytes, offset) == Ok((Decoded(q), offset + |EncodeQuestion(q)|))
  {
    QuestionAt(bytes, offset, q);
    NameIsDotted(bytes, offset, q.labels);
    QuestionAfterName(bytes, offset, Dotted(q.labels), offset + |EncodeName(q.labels)|);
  }

  lemma EncodeQuestionsHead(q: WireQuestion, rest: seq<WireQuestion>)
    requires ValidQuestion(q) && ValidQuestions(rest)
    ensures var qs := [q] + rest;
            qs[1..] == rest && ValidQuestions(qs) && EncodeQuestions(qs) == EncodeQuestion(q) + EncodeQuestions(rest)
            && DecodedAll(qs) == [Decoded(q)] + DecodedAll(rest)
  {
    assert ([q] + rest)[1..] == rest;
  }

  lemma OneQuestionMore(bytes: Bytes, offset: nat, n: nat, q: Question, next: nat, rest: seq<Question>, last: nat)
    requires OneQuestion(bytes, offset) == Ok((q, next)) && Questions(bytes, next, n) == Ok((rest, last))
    ensures Questions(bytes, offset, n + 1) == Ok(([q] + rest, last))
  {
  }

  lemma HeadIsAccepted(bytes: Bytes, offset: nat, q: WireQuestion, rest: seq<WireQuestion>) returns (next: nat)
    requires ValidQuestions([q] + rest) && At(bytes, offset, EncodeQuestions([q] + rest))
    ensures ValidQuestions(rest) && OneQuestion(bytes, offset) == Ok((Decoded(q), next))
            && At(bytes, next, EncodeQuestions(rest))
    ensures next + |EncodeQuestions(rest)| == offset + |EncodeQuestions([q] + rest)|
    ensures DecodedAll([q] + rest) == [Decoded(q)] + DecodedAll(rest)
  {
    assert q == ([q] + rest)[0] && forall i :: 0 <= i < |rest| ==> rest[i] == ([q] + rest)[i + 1];
    EncodeQuestionsHead(q, rest);
    AtSplit(bytes, offset, EncodeQuestion(q), EncodeQuestions(rest));
    QuestionIsAccepted(bytes, offset, q);
    next := offset + |EncodeQuestion(q)|;
  }

  lemma {:induction false} QuestionsAreAccepted(bytes: Bytes, offset: nat, qs: seq<WireQuestion>)
    requires ValidQuestions(qs) && At(bytes, offset, EncodeQuestions(qs))
    ensures Questions(bytes, offset, |qs|) == Ok((DecodedAll(qs), offset + |EncodeQuestions(qs)|))
    decreases |qs|
  {
    if qs == [] {
      assert DecodedAll(qs) == [];
    } else {
      var q, rest := qs[0], qs[1..];
      assert qs == [q] + rest;
      var next := HeadIsAccepted(bytes, offset, q, rest);
      QuestionsAreAccepted(bytes, next, rest);
      OneQuestionMore(bytes, offset, |rest|, Decoded(q), next, DecodedAll(rest), next + |EncodeQuestions(rest)|);
    }
  }

  lemma AcceptedIsQuestion(bytes: Bytes, offset: nat) returns (q: WireQuestion)
    requires OneQuestion(bytes, offset).Ok?
    ensures ValidQuestion(q) && At(bytes, offset, EncodeQuestion(q))
    ensures OneQuestion(bytes, offset).value.1 == offset + |EncodeQuestion(q)|
  {
    var labels := AcceptedIsName(bytes, offset, "", 0);
    var end := offset + |EncodeName(labels)|;
    q := WireQuestion(labels, U16(bytes, end), U16(bytes, end + 2));
    QuestionAt(bytes, offset, q);
  }

  lemma QuestionsJoin(bytes: Bytes, offset: nat, q: WireQuestion, rest: seq<WireQuestion>)
    requires ValidQuestion(q) && ValidQuestions(rest) && At(bytes, offset, EncodeQuestion(q))
    requires At(bytes, offset + |EncodeQuestion(q)|, EncodeQuestions(rest))
    ensures ValidQuestions([q] + rest) && At(bytes, offset, EncodeQuestions([q] + rest))
  {
    EncodeQuestionsHead(q, rest);
    AtSplit(bytes, offset, EncodeQuestion(q), EncodeQuestions(rest));
  }

  lemma QuestionsGoOn(bytes: Bytes, offset: nat, n: nat)
    requires n > 0 && Questions(bytes, offset, n).Ok?
    ensures OneQuestion(bytes, offset).Ok? && Questions(bytes, OneQuestion(bytes, offset).value.1, n - 1).Ok?
  {
  }

  lemma {:induction false} AcceptedAreQuestions(bytes: Bytes, offset: nat, n: nat) returns (qs: seq<WireQuestion>)
    requires Questions(bytes, offset, n).Ok? && offset <= |bytes|
    ensures |qs| == n && ValidQuestions(qs) && At(bytes, offset, EncodeQuestions(qs))
    decreases n
  {
    qs := [];
    if n > 0 {
      QuestionsGoOn(bytes, offset, n);
      var q := AcceptedIsQuestion(bytes, offset);
      var rest := AcceptedAreQuestions(bytes, offset + |EncodeQuestion(q)|, n - 1);
      qs := [q] + rest;
      QuestionsJoin(bytes, offset, q, rest);
    }
  }

  // ---------- Messages ----------

  lemma HeaderAt(bytes: Bytes, h: Header)
    requires ValidHeader(h) && |bytes| >= HEADER_LEN
    ensures At(bytes, 0, EncodeHeader(h)) <==> HeaderOf(bytes) == h
  {
    var a, b, c, d, e, f := EncodeU16(h.id), EncodeU16(h.flags), EncodeU16(h.qdcount), EncodeU16(h.ancount),
      EncodeU16(h.nscount), EncodeU16(h.arcount);
    AtSplit(bytes, 0, a + b + c + d + e, f);
    AtSplit(bytes, 0, a + b + c + d, e);
    AtSplit(bytes, 0, a + b + c, d);
    AtSplit(bytes, 0, a + b, c);
    AtSplit(bytes, 0, a, b);
    U16At(bytes, 0, h.id);
    U16At(bytes, 2, h.flags);
    U16At(bytes, 4, h.qdcount);
    U16At(bytes, 6, h.ancount);
    U16At(bytes, 8, h.nscount);
    U16At(bytes, 10, h.arcount);
  }

  predicate ValidMessage(h: Header, qs: seq<WireQuestion>) {
    ValidHeader(h) && ValidQuestions(qs) && |qs| == h.qdcount && qs != []
  }

  function Encode(h: Header, qs: seq<WireQuestion>): Bytes
    requires ValidMessage(h, qs)
  {
    EncodeHeader(h) + EncodeQuestions(qs)
  }

  lemma MessageSplits(bytes: Bytes, h: Header, qs: seq<WireQuestion>)
    requires ValidMessage(h, qs) && At(bytes, 0, Encode(h, qs))
    ensures |bytes| >= HEADER_LEN && HeaderOf(bytes) == h && At(bytes, HEADER_LEN, EncodeQuestions(qs))
    ensures |Encode(h, qs)| == HEADER_LEN + |EncodeQuestions(qs)|
  {
    AtSplit(bytes, 0, EncodeHeader(h), EncodeQuestions(qs));
    HeaderAt(bytes, h);
  }

  lemma MessageIsAccepted(bytes: Bytes, h: Header, qs: seq<WireQuestion>)
    requires ValidMessage(h, qs) && At(bytes, 0, Encode(h, qs))
    ensures Parse(bytes) == Ok(Query(h, DecodedAll(qs), |Encode(h, qs)|))
  {
    MessageSplits(bytes, h, qs);
    QuestionsAreAccepted(bytes, HEADER_LEN, qs);
  }

  /**
    Encoding a header and its questions and parsing the bytes, whatever follows them, gives the header and the decoded
    questions back.
  */
  lemma EncodeThenParse(h: Header, qs: seq<WireQuestion>, trailing: Bytes)
    requires ValidMessage(h, qs)
    ensures Parse(Encode(h, qs) + trailing) == Ok(Query(h, DecodedAll(qs), |Encode(h, qs)|))
  {
    var bytes := Encode(h, qs) + trailing;
    assert bytes[0..|Encode(h, qs)|] == Encode(h, qs);
    MessageIsAccepted(bytes, h, qs);
  }

  /** What `q` says `bytes` are: this header and some questions that decode to those of `q`, up to its end. */
  ghost predicate Grammar(bytes: Bytes, q: Query) {
    exists qs ::
      ValidMessage(q.header, qs) && At(bytes, 0, Encode(q.header, qs))
      && q.questions == DecodedAll(qs) && q.questionSectionEnd == |Encode(q.header, qs)|
  }

  lemma AcceptedIsMessage(bytes: Bytes, q: Query) returns (qs: seq<WireQuestion>)
    requires Parse(bytes) == Ok(q)
    ensures ValidMessage(q.header, qs) && At(bytes, 0, Encode(q.header, qs))
    ensures q.questions == DecodedAll(qs) && q.questionSectionEnd == |Encode(q.header, qs)|
  {
    HeaderAt(bytes, q.header);
    qs := AcceptedAreQuestions(bytes, HEADER_LEN, q.header.qdcount);
    QuestionsAreAccepted(bytes, HEADER_LEN, qs);
    AtSplit(bytes, 0, EncodeHeader(q.header), EncodeQuestions(qs));
  }

  /** The parser accepts a datagram, and with this result, iff the datagram has the grammar. */
  lemma ParsedExactlyWhenGrammar(bytes: Bytes, q: Query)
    ensures Parse(bytes) == Ok(q) <==> Grammar(bytes, q)
  {
    if Parse(bytes) == Ok(q) {
      var qs := AcceptedIsMessage(bytes, q);
      assert Grammar(bytes, q);
    }
    if Grammar(bytes, q) {
      var qs :| ValidMessage(q.header, qs) && At(bytes, 0, Encode(q.header, qs))
                && q.questions == DecodedAll(qs) && q.questionSectionEnd == |Encode(q.header, qs)|;
      MessageIsAccepted(bytes, q.header, qs);
    }
  }
}

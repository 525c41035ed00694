/**
  Facts about names: a cut datagram is reported as cut, dotted names lose nothing but case when labels have no dots,
  and how long a name may be.
*/
module DnsNames {
  import opened DnsGrammar
  import opened DnsMessage
  import opened Text
  import opened Wrappers

  // ---------- Cut datagrams ----------

  lemma {:induction false} CutName(bytes: Bytes, k: nat, offset: nat, name: string, total: nat)
    requires QName(bytes, offset, name, total).Ok? && k <= |bytes|
    ensures QName(bytes[..k], offset, name, total)
            == if k < QName(bytes, offset, name, total).value.1 then Err(TruncatedQuestion)
              else QName(bytes, offset, name, total)
    decreases |bytes| - offset
  {
    if offset < k {
      assert bytes[..k][offset] == bytes[offset];
      if bytes[offset] != 0 {
        var length, first := AcceptedIsLabel(bytes, offset, name, total);
        var next := offset + 1 + length;
        CutName(bytes, k, next, Extended(name, first), total + length + 1);
        NameEndsAfter(bytes, next, Extended(name, first), total + length + 1);
        if next <= k {
          assert bytes[..k][offset + 1..next] == first;
          QNameContinues(bytes[..k], offset, name, total);
        }
      }
    } else {
      NameEndsAfter(bytes, offset, name, total);
    }
  }

  lemma NameEndsAfter(bytes: Bytes, offset: nat, name: string, total: nat)
    requires QName(bytes, offset, name, total).Ok?
    ensures offset < QName(bytes, offset, name, total).value.1 <= |bytes|
    decreases |bytes| - offset
  {
    if bytes[offset] != 0 {
      var length, first := AcceptedIsLabel(bytes, offset, name, total);
      NameEndsAfter(bytes, offset + 1 + length, Extended(name, first), total + length + 1);
    }
  }

  lemma CutQuestion(bytes: Bytes, k: nat, offset: nat)
    requires OneQuestion(bytes, offset).Ok? && k <= |bytes|
    ensures OneQuestion(bytes[..k], offset)
            == if k < OneQuestion(bytes, offset).value.1 then Err(TruncatedQuestion) else OneQuestion(bytes, offset)
  {
    CutName(bytes, k, offset, "", 0);
    NameEndsAfter(bytes, offset, "", 0);
  }

  lemma {:induction false} CutQuestions(bytes: Bytes, k: nat, offset: nat, n: nat)
    requires Questions(bytes, offset, n).Ok? && offset <= k < Questions(bytes, offset, n).value.1 && k <= |bytes|
    ensures Questions(bytes[..k], offset, n) == Err(TruncatedQuestion)
    decreases n
  {
    if n > 0 {
      var next := OneQuestion(bytes, offset).value.1;
      CutQuestion(bytes, k, offset);
      if next <= k {
        CutQuestions(bytes, k, next, n - 1);
      }
    }
  }

  /** Any query cut short of its question section is reported as cut, never misread. */
  lemma EveryCutIsTruncated(bytes: Bytes, k: nat)
    requires Parse(bytes).Ok? && k < Parse(bytes).value.questionSectionEnd && k <= |bytes|
    ensures Parse(bytes[..k]) == Err(if k < HEADER_LEN then TruncatedHeader else TruncatedQuestion)
  {
    if k >= HEADER_LEN {
      assert HeaderOf(bytes[..k]) == HeaderOf(bytes);
      CutQuestions(bytes, k, HEADER_LEN, HeaderOf(bytes).qdcount);
    }
  }

  // ---------- Dotted names ----------

  predicate DotFree(labels: seq<Label>) {
    forall i, j :: 0 <= i < |labels| && 0 <= j < |labels[i]| ==> labels[i][j] as char != '.'
  }

  function LowerAll(labels: seq<Label>): seq<string> {
    seq(|labels|, i requires 0 <= i < |labels| => LowerLabel(labels[i]))
  }

  lemma NoDotsInside(octets: Bytes)
    requires forall j :: 0 <= j < |octets| ==> octets[j] as char != '.'
    ensures '.' !in LowerLabel(octets)
  {
  }

  lemma DottedHead(labels: seq<Label>)
    requires labels != []
    ensures var x := LowerLabel(labels[0]);
            |x| >= 1 && x <= Dotted(labels)
            && (if |labels| == 1 then Dotted(labels) == x
                else
                  && |x| < |Dotted(labels)| && Dotted(labels)[|x|] == '.'
                  && Dotted(labels)[|x| + 1..] == Dotted(labels[1..]))
  {
  }

  /** Without dots inside labels, the dotted form tells the labels apart up to case. */
  lemma {:induction false} DottedIsInjective(a: seq<Label>, b: seq<Label>)
    requires DotFree(a) && DotFree(b) && Dotted(a) == Dotted(b)
    ensures LowerAll(a) == LowerAll(b)
    decreases |a|
  {
    if a == [] || b == [] {
      if a != [] { DottedHead(a); }
      if b != [] { DottedHead(b); }
    } else {
      var x, y := LowerLabel(a[0]), LowerLabel(b[0]);
      DottedHead(a);
      DottedHead(b);
      NoDotsInside(a[0]);
      NoDotsInside(b[0]);
      SameFirstPiece(x, y, Dotted(a));
      assert |a| == 1 <==> |b| == 1;
      DottedIsInjective(a[1..], b[1..]);
      assert LowerAll(a) == [x] + LowerAll(a[1..]);
      assert LowerAll(b) == [y] + LowerAll(b[1..]);
    }
  }

  lemma SameFirstPiece(x: string, y: string, s: string)
    requires x <= s && y <= s && '.' !in x && '.' !in y
    requires |x| < |s| ==> s[|x|] == '.'
    requires |y| < |s| ==> s[|y|] == '.'
    ensures x == y
  {
    assert forall i :: 0 <= i < |x| ==> s[i] == x[i] && x[i] != '.';
    assert forall i :: 0 <= i < |y| ==> s[i] == y[i] && y[i] != '.';
    assert |x| == |y|;
  }

  // ---------- What is refused, and how ----------

  lemma LabelIsPassed(bytes: Bytes, offset: nat, name: string, total: nat, first: Label, next: nat, longer: string,
                      sum: nat)
    requires offset < |bytes| && bytes[offset] as nat == |first| && At(bytes, offset + 1, first)
    requires next == offset + 1 + |first| && longer == Extended(name, first) && sum == total + |first| + 1 <= MAX_NAME
    ensures QName(bytes, offset, name, total) == QName(bytes, next, longer, sum)
  {
    QNameContinues(bytes, offset, name, total);
  }

  /** A name without its root byte: its first label, and the others without theirs. */
  lemma UnendedName(bytes: Bytes, offset: nat, first: Label, rest: seq<Label>)
    requires var whole := EncodeName([first] + rest); At(bytes, offset, whole[..|whole| - 1])
    ensures offset < |bytes| && bytes[offset] as nat == |first| && At(bytes, offset + 1, first)
    ensures At(bytes, offset + 1 + |first|, EncodeName(rest)[..|EncodeName(rest)| - 1])
    ensures |EncodeName([first] + rest)| == 1 + |first| + |EncodeName(rest)|
  {
    var size, tail := [|first| as Byte], EncodeName(rest);
    EncodeNameHead([first] + rest);
    assert ([first] + rest)[1..] == rest;
    assert (size + (first + tail))[..|size + (first + tail)| - 1] == size + (first + tail[..|tail| - 1]);
    AtSplit(bytes, offset, size, first + tail[..|tail| - 1]);
    AtSplit(bytes, offset + 1, first, tail[..|tail| - 1]);
    assert bytes[offset..offset + 1] == [bytes[offset]];
  }

  /** After any labels that fit, a length byte of 64 or more (a pointer or a reserved form) is an invalid label. */
  lemma {:induction false} BadLengthIsRefused(bytes: Bytes, offset: nat, name: string, total: nat,
                                              labels: seq<Label>, end: nat)
    requires At(bytes, offset, EncodeName(labels)[..|EncodeName(labels)| - 1]) && total + LabelsLen(labels) <= MAX_NAME
    requires end == offset + |EncodeName(labels)| - 1 && end < |bytes| && bytes[end] as nat >= 64
    ensures QName(bytes, offset, name, total) == Err(InvalidLabel)
    decreases |labels|
  {
    if labels == [] {
      ReservedExactlyFrom64(bytes[offset] as nat);
    } else {
      var first, rest := labels[0], labels[1..];
      assert labels == [first] + rest;
      UnendedName(bytes, offset, first, rest);
      var next, longer, sum := offset + 1 + |first|, Extended(name, first), total + |first| + 1;
      LabelIsPassed(bytes, offset, name, total, first, next, longer, sum);
      BadLengthIsRefused(bytes, next, longer, sum, rest, end);
    }
  }

  /** A datagram too short for a header, one without a question, and one whose first name has a bad length byte. */
  lemma RefusedDatagrams(bytes: Bytes, labels: seq<Label>)
    ensures |bytes| < 12 ==> Parse(bytes) == Err(TruncatedHeader)
    ensures |bytes| >= 12 && bytes[4] == 0 && bytes[5] == 0 ==> Parse(bytes) == Err(NoQuestion)
    ensures var name := EncodeName(labels)[..|EncodeName(labels)| - 1];
            |bytes| > 12 + |name| && (bytes[4] != 0 || bytes[5] != 0) && LabelsLen(labels) <= MAX_NAME
            && At(bytes, 12, name) && bytes[12 + |name|] as nat >= 64
            ==> Parse(bytes) == Err(InvalidLabel)
  {
    var name := EncodeName(labels)[..|EncodeName(labels)| - 1];
    if |bytes| > 12 + |name| && LabelsLen(labels) <= MAX_NAME && At(bytes, 12, name)
      && bytes[12 + |name|] as nat >= 64 {
      BadLengthIsRefused(bytes, 12, "", 0, labels, 12 + |name|);
    }
  }

  // ---------- Where things stand on the wire ----------

  /** Section 4.1.1 of RFC 1035: six numbers of two octets each, the high octet first. */
  lemma HeaderStands(bytes: Bytes)
    requires |bytes| >= 12
    ensures var h := HeaderOf(bytes);
            && h.id == 256 * bytes[0] as nat + bytes[1] as nat
            && h.flags == 256 * bytes[2] as nat + bytes[3] as nat
            && h.qdcount == 256 * bytes[4] as nat + bytes[5] as nat
            && h.ancount == 256 * bytes[6] as nat + bytes[7] as nat
            && h.nscount == 256 * bytes[8] as nat + bytes[9] as nat
            && h.arcount == 256 * bytes[10] as nat + bytes[11] as nat
  {
  }

  /** Section 4.1.2 of RFC 1035: after the name come type and class, two octets each. */
  lemma QuestionStands(bytes: Bytes, offset: nat)
    requires OneQuestion(bytes, offset).Ok?
    ensures var (q, end) := OneQuestion(bytes, offset).value;
            && 4 <= end <= |bytes|
            && q.qtype == 256 * bytes[end - 4] as nat + bytes[end - 3] as nat
            && q.qclass == 256 * bytes[end - 2] as nat + bytes[end - 1] as nat
  {
  }

  /** A label's text is its octets with the ASCII capitals made small. */
  lemma LabelIsLowered(octets: Bytes, k: nat)
    requires k < |octets|
    ensures |LowerLabel(octets)| == |octets|
    ensures forall i :: 0 <= i < 26 && octets[k] as char == UPPER[i] ==> LowerLabel(octets)[k] == LOWER[i]
    ensures octets[k] as char !in UPPER ==> LowerLabel(octets)[k] == octets[k] as char
  {
    forall i | 0 <= i < 26 && octets[k] as char == UPPER[i] ensures LowerChar(octets[k] as char) == LOWER[i] {
      LetterBelow(octets[k] as char, i);
    }
    if octets[k] as char !in UPPER {
      OnlyCapitalsChange(octets[k] as char);
    }
  }

  // ---------- The length bound ----------

  lemma {:induction false} OctetsOfName(labels: seq<Label>)
    ensures |EncodeName(labels)| == LabelsLen(labels) + 1
    decreases |labels|
  {
    if labels != [] {
      EncodeNameHead(labels);
      OctetsOfName(labels[1..]);
    }
  }

  lemma {:induction false} TooLongIsRefused(bytes: Bytes, offset: nat, name: string, total: nat, labels: seq<Label>)
    requires At(bytes, offset, EncodeName(labels)) && total <= MAX_NAME < total + LabelsLen(labels)
    ensures QName(bytes, offset, name, total) == Err(NameTooLong)
    decreases |labels|
  {
    var first := labels[0];
    NameHeadAt(bytes, offset, labels);
    if total + |first| + 1 <= MAX_NAME {
      var next, longer, sum := offset + 1 + |first|, Extended(name, first), total + |first| + 1;
      LabelIsPassed(bytes, offset, name, total, first, next, longer, sum);
      TooLongIsRefused(bytes, next, longer, sum, labels[1..]);
    } else {
      LabelOverflows(bytes, offset, name, total, first);
    }
  }

  lemma LabelOverflows(bytes: Bytes, offset: nat, name: string, total: nat, first: Label)
    requires offset < |bytes| && bytes[offset] as nat == |first| && At(bytes, offset + 1, first)
    requires total + |first| + 1 > MAX_NAME
    ensures QName(bytes, offset, name, total) == Err(NameTooLong)
  {
    ReservedExactlyFrom64(|first|);
  }

  /** An encoded name is accepted exactly when it has at most 256 octets, and else refused as too long. */
  lemma AcceptedUpTo256Octets(bytes: Bytes, offset: nat, labels: seq<Label>)
    requires At(bytes, offset, EncodeName(labels))
    ensures if |EncodeName(labels)| <= 256 then QName(bytes, offset, "", 0).Ok?
            else QName(bytes, offset, "", 0) == Err(NameTooLong)
  {
    OctetsOfName(labels);
    if LabelsLen(labels) <= MAX_NAME {
      NameIsAccepted(bytes, offset, "", 0, labels);
    } else {
      TooLongIsRefused(bytes, offset, "", 0, labels);
    }
  }

  /**
    Of the accepted names exactly those whose labels with their length bytes fill 255 are longer than the standard's
    255 octets.
  */
  lemma OneOctetTooManyExactlyWhen(bytes: Bytes, offset: nat) returns (labels: seq<Label>)
    requires QName(bytes, offset, "", 0).Ok?
    ensures At(bytes, offset, EncodeName(labels))
            && QName(bytes, offset, "", 0).value.1 == offset + |EncodeName(labels)|
    ensures |EncodeName(labels)| > 255 <==> LabelsLen(labels) == 255
  {
    labels := AcceptedIsName(bytes, offset, "", 0);
    OctetsOfName(labels);
  }

  /** A name of 256 octets that is accepted. */
  lemma NameOf256Octets() returns (labels: seq<Label>)
    ensures |EncodeName(labels)| == 256 && QName(EncodeName(labels), 0, "", 0).Ok?
  {
    var long: Label, last: Label := seq(63, _ => 97 as Byte), seq(62, _ => 97 as Byte);
    labels := [long, long, long, last];
    assert labels[1..] == [long, long, last] && labels[1..][1..] == [long, last] && labels[1..][1..][1..] == [last];
    assert LabelsLen([last]) == 63 by { assert [last][1..] == []; }
    assert LabelsLen([long, last]) == 127 by { assert [long, last][1..] == [last]; }
    OctetsOfName(labels);
    AcceptedUpTo256Octets(EncodeName(labels), 0, labels);
  }
}

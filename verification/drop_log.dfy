/**
  Kernel-log drop lines: the prefix a run's packets are logged under, reading such lines, and forwarding a run's own.
*/
module DropLog {
  import opened Bits
  import opened SandboxNet
  import opened Sequences
  import opened Text
  import opened Ulid
  import opened Wrappers

  const MARKER := "bunsen-egress-drop["

  datatype DropEvent = DropEvent(table: string, destination: string, l4Proto: string)

  function DropLogPrefix(tableName: string): string {
    MARKER + tableName + "]: "
  }

  // ---------- Reading a line ----------

  /** Where `t` first stands in `s`. */
  function Find(s: string, t: string): (r: Option<nat>)
    ensures r.Some? ==> r.value <= |s| && t <= s[r.value..] && forall k: nat :: k < r.value ==> !(t <= s[k..])
    ensures r.None? ==> forall k: nat :: k <= |s| ==> !(t <= s[k..])
  {
    if t <= s then
      assert s[0..] == s;
      Some(0)
    else if s == "" then None
    else
      var r := Find(s[1..], t);
      assert s[0..] == s && forall k: nat :: 1 <= k <= |s| ==> s[k..] == s[1..][k - 1..];
      if r.None? then None else Some(r.value + 1)
  }

  predicate IsAsciiSpace(c: char) {
    c == ' ' || c == '\t' || c == '\n' || c == '\U{000C}' || c == '\r'
  }

  /** The length of the first token of `s`. */
  function TokenLen(s: string): (n: nat)
    ensures n <= |s| && (s != "" && !IsAsciiSpace(s[0]) ==> n > 0)
  {
    if s == "" || IsAsciiSpace(s[0]) then 0 else 1 + TokenLen(s[1..])
  }

  function Tokens(s: string): seq<string>
    decreases |s|
  {
    if s == "" then []
    else if IsAsciiSpace(s[0]) then Tokens(s[1..])
    else [s[..TokenLen(s)]] + Tokens(s[TokenLen(s)..])
  }

  function ValueOf(token: string, key: string): Option<string> {
    if key <= token then Some(token[|key|..]) else None
  }

  /** The value of the last token that starts with `key`. */
  function Field(tokens: seq<string>, key: string): Option<string> {
    if tokens == [] then None
    else
      var last := ValueOf(tokens[|tokens| - 1], key);
      if last.Some? then last else Field(tokens[..|tokens| - 1], key)
  }

  /** The event the fields after the prefix describe; without a destination there is none. */
  function Described(table: string, tokens: seq<string>): Option<DropEvent> {
    var dst, dpt, proto := Field(tokens, "DST="), Field(tokens, "DPT="), Field(tokens, "PROTO=");
    if dst.None? || dst.value == "" then None
    else
      Some(DropEvent(table, if dpt.Some? && dpt.value != "" then dst.value + ":" + dpt.value else dst.value,
                     if proto.Some? then proto.value else "UNKNOWN"))
  }

  /** What follows the marker: the table up to the bracket, then the fields. */
  function ParseTable(afterMarker: string): Option<DropEvent> {
    match Find(afterMarker, "]")
    case None => None
    case Some(end) =>
      if end == 0 then None
      else
        var rest := afterMarker[end + 1..];
        Described(afterMarker[..end], Tokens(TrimStart(if ":" <= rest then rest[1..] else rest)))
  }

  function Parse(line: string): Option<DropEvent> {
    match Find(line, MARKER)
    case None => None
    case Some(start) => ParseTable(line[start + |MARKER|..])
  }

  lemma FieldPush(tokens: seq<string>, i: nat, key: string)
    requires i < |tokens|
    ensures Field(tokens[..i + 1], key) == if key <= tokens[i] then Some(tokens[i][|key|..])
            else Field(tokens[..i], key)
  {
    assert tokens[..i + 1][..i] == tokens[..i] && tokens[..i + 1][i] == tokens[i];
  }

  lemma KeysExclude(token: string)
    ensures "DST=" <= token ==> !("DPT=" <= token) && !("PROTO=" <= token)
    ensures "DPT=" <= token ==> !("PROTO=" <= token)
  {
    assert "DST=" <= token ==> token[0] == 'D' && token[1] == 'S';
    assert "DPT=" <= token ==> token[0] == 'D' && token[1] == 'P';
    assert "PROTO=" <= token ==> token[0] == 'P';
  }

  method ReadFields(tokens: seq<string>) returns (dst: Option<string>, dpt: Option<string>, l4: Option<string>)
    ensures dst == Field(tokens, "DST=") && dpt == Field(tokens, "DPT=") && l4 == Field(tokens, "PROTO=")
  {
    dst, dpt, l4 := None, None, None;
    for i := 0 to |tokens|
      invariant dst == Field(tokens[..i], "DST=") && dpt == Field(tokens[..i], "DPT=")
                && l4 == Field(tokens[..i], "PROTO=")
    {
      var token := tokens[i];
      KeysExclude(token);
      FieldPush(tokens, i, "DST=");
      FieldPush(tokens, i, "DPT=");
      FieldPush(tokens, i, "PROTO=");
      if "DST=" <= token {
        dst := Some(token[4..]);
      } else if "DPT=" <= token {
        dpt := Some(token[4..]);
      } else if "PROTO=" <= token {
        l4 := Some(token[6..]);
      }
    }
    assert tokens[..|tokens|] == tokens;
  }

  /** The last stage: destination, port and protocol out of the tokens. */
  method Describe(table: string, tokens: seq<string>) returns (r: Option<DropEvent>)
    ensures r == Described(table, tokens)
  {
    var dst, dpt, l4 := ReadFields(tokens);
    if dst.None? || dst.value == "" {
      return None;
    }
    var destination := dst.value;
    if dpt.Some? && dpt.value != "" {
      destination := dst.value + ":" + dpt.value;
    }
    return Some(DropEvent(table, destination, if l4.Some? then l4.value else "UNKNOWN"));
  }

  /** The middle stage: the table up to the bracket, and a colon after it if there is one. */
  method ReadTable(afterMarker: string) returns (r: Option<DropEvent>)
    ensures r == ParseTable(afterMarker)
  {
    var end := Find(afterMarker, "]");
    if end.None? || end.value == 0 {
      return None;
    }
    var rest := afterMarker[end.value + 1..];
    if ":" <= rest {
      rest := rest[1..];
    }
    r := Describe(afterMarker[..end.value], Tokens(TrimStart(rest)));
  }

  method ParseDropLogLine(line: string) returns (r: Option<DropEvent>)
    ensures r == Parse(line)
  {
    var start := Find(line, MARKER);
    if start.None? {
      return None;
    }
    r := ReadTable(line[start.value + |MARKER|..]);
  }

  // ---------- What was logged is what is read ----------

  lemma FindIs(s: string, t: string, k: nat)
    requires k <= |s| && t <= s[k..] && forall j: nat :: j < k ==> !(t <= s[j..])
    ensures Find(s, t) == Some(k)
  {
    assert Find(s, t).Some?;
    var r := Find(s, t).value;
    assert !(r < k) && !(k < r);
  }

  lemma BracketIsFirst(table: string, after: string)
    requires ']' !in table
    ensures Find(table + ("]" + after), "]") == Some(|table|)
  {
    var s := table + ("]" + after);
    assert s[|table|..] == "]" + after;
    forall j: nat | j < |table| ensures !("]" <= s[j..]) {
      assert s[j..][0] == table[j];
    }
    FindIs(s, "]", |table|);
  }

  lemma TableIsRead(table: string, fields: string)
    requires table != "" && ']' !in table
    ensures ParseTable(table + ("]" + (": " + fields))) == Described(table, Tokens(TrimStart(fields)))
  {
    var after := table + ("]" + (": " + fields));
    BracketIsFirst(table, ": " + fields);
    assert after[..|table|] == table && after[|table| + 1..] == ": " + fields;
    assert (": " + fields)[1..] == " " + fields;
    SpaceIsTrimmed(fields);
  }

  lemma SpaceIsTrimmed(s: string)
    ensures TrimStart(" " + s) == TrimStart(s)
  {
    assert (" " + s)[1..] == s;
  }

  /** Whether the marker stands nowhere in the line before the one that follows `lead`. */
  ghost predicate FirstMarker(lead: string, after: string) {
    forall k: nat :: k < |lead| ==> !(MARKER <= (lead + (MARKER + after))[k..])
  }

  lemma MarkerIsFirst(lead: string, after: string)
    requires FirstMarker(lead, after)
    ensures Find(lead + (MARKER + after), MARKER) == Some(|lead|)
    ensures (lead + (MARKER + after))[|lead| + |MARKER|..] == after
  {
    assert (lead + (MARKER + after))[|lead|..] == MARKER + after;
    FindIs(lead + (MARKER + after), MARKER, |lead|);
  }

  /**
    A line logged under a table's prefix, whatever precedes it, is read as that table with the fields that follow:
    the last of each key.
  */
  lemma LoggedLineIsRead(lead: string, table: string, fields: string)
    requires table != "" && ']' !in table && FirstMarker(lead, table + ("]" + (": " + fields)))
    ensures Parse(lead + DropLogPrefix(table) + fields) == Described(table, Tokens(TrimStart(fields)))
  {
    var after := table + ("]" + (": " + fields));
    PrefixedLine(lead, table, fields);
    MarkerIsFirst(lead, after);
    TableIsRead(table, fields);
  }

  lemma PrefixedLine(lead: string, table: string, fields: string)
    ensures lead + DropLogPrefix(table) + fields == lead + (MARKER + (table + ("]" + (": " + fields))))
  {
    assert "]: " == "]" + ": ";
    assert DropLogPrefix(table) == MARKER + table + ("]" + ": ");
    assert lead + (MARKER + table + ("]" + ": ")) + fields == lead + (MARKER + (table + ("]" + (": " + fields))));
  }

  // ---------- What a line's fields say ----------

  predicate HasNoSpace(s: string) {
    forall i :: 0 <= i < |s| ==> !(s[i] in " \t\n\r\U{000C}")
  }

  /** Words with a space after each. */
  function Spaced(words: seq<string>): string {
    if words == [] then "" else words[0] + (" " + Spaced(words[1..]))
  }

  lemma {:induction false} TokenLenIs(word: string, rest: string)
    requires HasNoSpace(word)
    ensures TokenLen(word + (" " + rest)) == |word|
    decreases |word|
  {
    var s := word + (" " + rest);
    if word != "" {
      assert s[0] == word[0] && s[1..] == word[1..] + (" " + rest);
      TokenLenIs(word[1..], rest);
    }
  }

  lemma OneToken(word: string, rest: string)
    requires HasNoSpace(word) && word != ""
    ensures Tokens(word + (" " + rest)) == [word] + Tokens(rest)
  {
    var s := word + (" " + rest);
    TokenLenIs(word, rest);
    assert s[0] == word[0] && s[..|word|] == word && s[|word|..] == " " + rest;
    assert (" " + rest)[1..] == rest;
  }

  /** Words apart by spaces are read as those words. */
  lemma {:induction false} SpacedIsTokens(words: seq<string>)
    requires forall w :: w in words ==> w != "" && HasNoSpace(w)
    ensures Tokens(Spaced(words)) == words
    decreases |words|
  {
    if words != [] {
      assert forall w :: w in words[1..] ==> w in words;
      SpacedIsTokens(words[1..]);
      OneToken(words[0], Spaced(words[1..]));
    }
  }

  /** The last token that begins with `key` has this value; with none there is no value. */
  ghost predicate LastValue(tokens: seq<string>, key: string, value: Option<string>) {
    match value
    case None => forall i :: 0 <= i < |tokens| ==> !(key <= tokens[i])
    case Some(v) =>
      exists i ::
        && 0 <= i < |tokens| && tokens[i] == key + v
        && forall j :: i < j < |tokens| ==> !(key <= tokens[j])
  }

  lemma {:induction false} FieldIsLast(tokens: seq<string>, key: string)
    ensures LastValue(tokens, key, Field(tokens, key))
    decreases |tokens|
  {
    if tokens != [] {
      var n := |tokens| - 1;
      FieldIsLast(tokens[..n], key);
      FieldPush(tokens, n, key);
      assert tokens[..n + 1] == tokens;
      if key <= tokens[n] {
        assert tokens[n] == key + tokens[n][|key|..];
      } else if Field(tokens, key).Some? {
        var v := Field(tokens, key).value;
        var i :| 0 <= i < n && tokens[..n][i] == key + v && forall j :: i < j < n ==> !(key <= tokens[..n][j]);
        assert tokens[i] == key + v && forall j :: i < j < n ==> tokens[..n][j] == tokens[j];
      } else {
        assert forall i :: 0 <= i < n ==> tokens[..n][i] == tokens[i];
      }
    }
  }

  lemma LastValueIsUnique(tokens: seq<string>, key: string, a: Option<string>, b: Option<string>)
    requires LastValue(tokens, key, a) && LastValue(tokens, key, b)
    ensures a == b
  {
    if a.Some? && b.Some? {
      var i :| 0 <= i < |tokens| && tokens[i] == key + a.value && forall j :: i < j < |tokens| ==> !(key <= tokens[j]);
      var k :| 0 <= k < |tokens| && tokens[k] == key + b.value && forall j :: k < j < |tokens| ==> !(key <= tokens[j]);
      assert !(i < k) && !(k < i);
      SamePrefix(key, a.value, b.value);
    }
  }

  /** The values of a line: destination, port and protocol, each as its last token says. */
  ghost predicate Values(tokens: seq<string>, dst: Option<string>, port: Option<string>, proto: Option<string>) {
    LastValue(tokens, "DST=", dst) && LastValue(tokens, "DPT=", port) && LastValue(tokens, "PROTO=", proto)
  }

  /** The event of a line: its address, with the port after a colon if there is one, and its protocol or `UNKNOWN`. */
  lemma DescribedIs(table: string, tokens: seq<string>, dst: Option<string>, port: Option<string>,
                    proto: Option<string>)
    requires Values(tokens, dst, port, proto)
    ensures dst.None? || dst.value == "" ==> Described(table, tokens) == None
    ensures dst.Some? && dst.value != "" ==>
              && Described(table, tokens).Some?
              && var e := Described(table, tokens).value;
                 && e.table == table
                 && e.destination
                    == (if port.Some? && port.value != "" then dst.value + ":" + port.value else dst.value)
                 && e.l4Proto == (if proto.Some? then proto.value else "UNKNOWN")
  {
    FieldIsLast(tokens, "DST=");
    FieldIsLast(tokens, "DPT=");
    FieldIsLast(tokens, "PROTO=");
    LastValueIsUnique(tokens, "DST=", dst, Field(tokens, "DST="));
    LastValueIsUnique(tokens, "DPT=", port, Field(tokens, "DPT="));
    LastValueIsUnique(tokens, "PROTO=", proto, Field(tokens, "PROTO="));
  }

  lemma SpacedNeedsNoTrim(words: seq<string>)
    requires forall w :: w in words ==> w != "" && HasNoMargin(w)
    ensures TrimStart(Spaced(words)) == Spaced(words)
  {
    if words != [] {
      var s := Spaced(words);
      assert words[0] in words && s[0] == words[0][0];
      TrimStartDrops("", s);
      assert "" + s == s;
    }
  }

  /**
    A drop logged under a table's prefix with these words as its fields is read as that table's drop of the words'
    address, port and protocol.
  */
  lemma LoggedDropIsRead(lead: string, table: string, words: seq<string>, dst: string, port: Option<string>,
                         proto: Option<string>)
    requires table != "" && ']' !in table && dst != "" && Values(words, Some(dst), port, proto)
    requires forall w :: w in words ==> w != "" && HasNoSpace(w) && HasNoMargin(w)
    requires FirstMarker(lead, table + ("]" + (": " + Spaced(words))))
    ensures Parse(lead + ("bunsen-egress-drop[" + table + "]: ") + Spaced(words))
            == Some(DropEvent(table, if port.Some? && port.value != "" then dst + ":" + port.value else dst,
                              if proto.Some? then proto.value else "UNKNOWN"))
  {
    assert DropLogPrefix(table) == "bunsen-egress-drop[" + table + "]: ";
    LoggedLineIsRead(lead, table, Spaced(words));
    SpacedNeedsNoTrim(words);
    SpacedIsTokens(words);
    DescribedIs(table, words, Some(dst), port, proto);
  }

  lemma TablesHaveNoBracket(runId: string)
    ensures ']' !in TableName(runId) && TableName(runId) != ""
  {
  }

  // ---------- Forwarding ----------

  function OwnEvent(own: string): string -> Option<DropEvent> {
    line => if Parse(line).Some? && Parse(line).value.table == own then Parse(line) else None
  }

  /** Forwards a run's own events in order, until the receiver, which takes `room` more, is gone. */
  method PumpDropLogLines(lines: seq<string>, own: string, room: nat) returns (sent: seq<DropEvent>)
    ensures var all := Select(OwnEvent(own), lines); sent == all[..if room < |all| then room else |all|]
  {
    sent := [];
    ghost var f := OwnEvent(own);
    for i := 0 to |lines|
      invariant |sent| <= room && sent == Select(f, lines[..i])
    {
      var event := ParseDropLogLine(lines[i]);
      assert f(lines[i]) == if event.Some? && event.value.table == own then event else None;
      SelectTake(f, lines, i);
      SelectPrefix(f, lines, i + 1);
      if event.None? {
        continue;
      }
      if event.value.table != own {
        continue;
      }
      if |sent| == room {
        return;
      }
      sent := sent + [event.value];
    }
    assert lines[..|lines|] == lines;
  }

  /** A drop logged for one run is forwarded by another's reader exactly when their ids agree above the low 50 bits. */
  lemma DropsReachTheirRun(a: nat, b: nat, lead: string, fields: string)
    requires a < TWO_64 * TWO_64 && b < TWO_64 * TWO_64
    requires Described("", Tokens(TrimStart(fields))).Some?
    requires FirstMarker(lead, TableName(Encode(b)) + ("]" + (": " + fields)))
    ensures OwnEvent(TableName(Encode(a)))(lead + DropLogPrefix(TableName(Encode(b))) + fields).Some?
            <==> a / TWO_50 == b / TWO_50
  {
    TablesHaveNoBracket(Encode(b));
    LoggedLineIsRead(lead, TableName(Encode(b)), fields);
    TablesCollideExactlyWhen(a, b);
  }
}

/** Text operations shared by several modules: trimming white space and lowering ASCII letters. */
module Text {
  predicate IsSpace(c: char) {
    || c == ' ' || '\t' <= c <= '\r' || c == '\U{0085}' || c == '\U{00A0}' || c == '\U{1680}'
    || '\U{2000}' <= c <= '\U{200A}' || c == '\U{2028}' || c == '\U{2029}' || c == '\U{202F}' || c == '\U{205F}'
    || c == '\U{3000}'
  }

  function TrimStart(s: string): string {
    if s != [] && IsSpace(s[0]) then TrimStart(s[1..]) else s
  }

  function TrimEnd(s: string): string {
    if s != [] && IsSpace(s[|s| - 1]) then TrimEnd(s[..|s| - 1]) else s
  }

  function Trim(s: string): string {
    TrimEnd(TrimStart(s))
  }

  function LowerChar(c: char): char {
    if 'A' <= c <= 'Z' then (c as int + 32) as char else c
  }

  function Lower(s: string): string {
    seq(|s|, i requires 0 <= i < |s| => LowerChar(s[i]))
  }

  // ---------- What trimming and lowering do ----------

  /** The characters with the Unicode property White_Space. */
  const WHITE_SPACE :=
    " \t\n\r\U{000B}\U{000C}\U{0085}\U{00A0}\U{1680}"
    + "\U{2000}\U{2001}\U{2002}\U{2003}\U{2004}\U{2005}\U{2006}\U{2007}\U{2008}\U{2009}\U{200A}"
    + "\U{2028}\U{2029}\U{202F}\U{205F}\U{3000}"

  const UPPER := "ABCDEFGHIJKLMNOPQRSTUVWXYZ"
  const LOWER := "abcdefghijklmnopqrstuvwxyz"

  lemma SpacesAre(c: char)
    ensures IsSpace(c) <==> c in WHITE_SPACE
  {
  }

  predicate AllSpaces(s: string) {
    forall i :: 0 <= i < |s| ==> s[i] in WHITE_SPACE
  }

  /** Neither begins nor ends with white space. */
  predicate HasNoMargin(s: string) {
    s != "" ==> s[0] !in WHITE_SPACE && s[|s| - 1] !in WHITE_SPACE
  }

  lemma {:induction false} TrimStartDrops(lead: string, s: string)
    requires AllSpaces(lead) && (s != "" ==> s[0] !in WHITE_SPACE)
    ensures TrimStart(lead + s) == s
    decreases |lead|
  {
    if lead == "" {
      assert lead + s == s;
      if s != "" { SpacesAre(s[0]); }
    } else {
      SpacesAre(lead[0]);
      assert (lead + s)[1..] == lead[1..] + s;
      TrimStartDrops(lead[1..], s);
    }
  }

  lemma {:induction false} TrimEndDrops(s: string, trail: string)
    requires AllSpaces(trail) && (s != "" ==> s[|s| - 1] !in WHITE_SPACE)
    ensures TrimEnd(s + trail) == s
    decreases |trail|
  {
    if trail == "" {
      assert s + trail == s;
      if s != "" { SpacesAre(s[|s| - 1]); }
    } else {
      var n := |trail| - 1;
      SpacesAre(trail[n]);
      assert (s + trail)[..|s + trail| - 1] == s + trail[..n];
      TrimEndDrops(s, trail[..n]);
    }
  }

  /** Trimming takes the white space at both ends away and nothing else. */
  lemma TrimDropsMargins(lead: string, s: string, trail: string)
    requires AllSpaces(lead) && AllSpaces(trail) && HasNoMargin(s)
    ensures Trim(lead + s + trail) == s
  {
    if s == "" {
      assert lead + s + trail == (lead + trail) + "";
      TrimStartDrops(lead + trail, "");
      TrimEndDrops("", "");
    } else {
      assert lead + s + trail == lead + (s + trail);
      TrimStartDrops(lead, s + trail);
      TrimEndDrops(s, trail);
    }
  }

  lemma {:induction false} StartMargin(s: string) returns (lead: string)
    ensures AllSpaces(lead) && s == lead + TrimStart(s) && (TrimStart(s) != "" ==> TrimStart(s)[0] !in WHITE_SPACE)
  {
    lead := "";
    if s != "" {
      SpacesAre(s[0]);
      if IsSpace(s[0]) {
        var more := StartMargin(s[1..]);
        lead := [s[0]] + more;
        assert s == [s[0]] + s[1..];
      }
    }
  }

  lemma {:induction false} EndMargin(s: string) returns (trail: string)
    ensures AllSpaces(trail) && s == TrimEnd(s) + trail
    ensures TrimEnd(s) != "" ==> TrimEnd(s)[|TrimEnd(s)| - 1] !in WHITE_SPACE
    decreases |s|
  {
    trail := "";
    if s != "" {
      var n := |s| - 1;
      SpacesAre(s[n]);
      if IsSpace(s[n]) {
        var more := EndMargin(s[..n]);
        trail := more + [s[n]];
        OneMoreEnd(s, TrimEnd(s), more);
      }
    }
  }

  lemma OneMoreEnd(s: string, kept: string, more: string)
    requires s != "" && s[..|s| - 1] == kept + more
    ensures s == kept + (more + [s[|s| - 1]])
  {
    assert s == s[..|s| - 1] + [s[|s| - 1]];
  }

  /** Every text is its trimmed form between two margins of white space. */
  lemma TrimIsMiddle(s: string) returns (lead: string, trail: string)
    ensures AllSpaces(lead) && AllSpaces(trail) && HasNoMargin(Trim(s)) && s == lead + Trim(s) + trail
  {
    lead := StartMargin(s);
    trail := EndMargin(TrimStart(s));
  }

  lemma LetterBelow(c: char, i: nat)
    requires i < 26 && UPPER[i] == c
    ensures LowerChar(c) == LOWER[i]
  {
  }

  lemma CapitalIsListed(c: char)
    requires 'A' <= c <= 'Z'
    ensures c in UPPER
  {
    assert UPPER[c as int - 'A' as int] == c;
  }

  lemma OnlyCapitalsChange(c: char)
    requires c !in UPPER
    ensures LowerChar(c) == c
  {
    if 'A' <= c <= 'Z' {
      CapitalIsListed(c);
    }
  }

  /** Lowering takes each capital to its small letter and leaves everything else. */
  lemma LoweredAt(s: string, k: nat)
    requires k < |s|
    ensures |Lower(s)| == |s|
    ensures forall i :: 0 <= i < 26 && s[k] == UPPER[i] ==> Lower(s)[k] == LOWER[i]
    ensures s[k] !in UPPER ==> Lower(s)[k] == s[k]
  {
    forall i | 0 <= i < 26 && s[k] == UPPER[i] ensures LowerChar(s[k]) == LOWER[i] {
      LetterBelow(s[k], i);
    }
    if s[k] !in UPPER {
      OnlyCapitalsChange(s[k]);
    }
  }
}

/**
  The streaming secret redactor: leftmost-longest replacement over a stream that
  arrives in chunks, with the tail that might begin a secret carried to the next call.

  The simple form is `Scan`, which reads a complete input from the left. The fast
  form is the class `Redactor`, which sees the input one chunk at a time. Both are
  described by tokens: a byte passed through, or the mark of a numbered secret.
*/
module Redaction {
  import opened Sequences
  import opened Wrappers

  /** The values to look for. `Redactor.new` refuses an empty value. */
  type Patterns = ps: seq<Bytes> | forall i :: 0 <= i < |ps| ==> ps[i] != [] witness []

  datatype Token = Raw(b: Byte) | Mark(id: nat)

  // ---------- The multi-pattern matcher, as a specification ----------

  predicate Starts(p: Bytes, s: Bytes) {
    p <= s
  }

  /** The longest of the first `n` patterns that starts `s`; the first listed one on a tie. */
  function BestAmong(ps: Patterns, s: Bytes, n: nat): (r: Option<nat>)
    requires n <= |ps|
    ensures r.None? ==> forall i :: 0 <= i < n ==> !Starts(ps[i], s)
    ensures r.Some? ==> r.value < n && Starts(ps[r.value], s)
    ensures r.Some? ==> forall i :: 0 <= i < n && Starts(ps[i], s) ==>
                                      |ps[i]| < |ps[r.value]| || (|ps[i]| == |ps[r.value]| && r.value <= i)
  {
    if n == 0 then None
    else
      var prev := BestAmong(ps, s, n - 1);
      if Starts(ps[n - 1], s) && (prev.None? || |ps[prev.value]| < |ps[n - 1]|) then Some(n - 1) else prev
  }

  function Best(ps: Patterns, s: Bytes): (r: Option<nat>)
    ensures r.None? <==> forall i :: 0 <= i < |ps| ==> !Starts(ps[i], s)
    ensures r.Some? ==> r.value < |ps| && Starts(ps[r.value], s)
    ensures r.Some? ==> forall i :: 0 <= i < |ps| && Starts(ps[i], s) ==>
                                      |ps[i]| < |ps[r.value]| || (|ps[i]| == |ps[r.value]| && r.value <= i)
  {
    BestAmong(ps, s, |ps|)
  }

  datatype Match = Match(start: nat, end: nat, id: nat)

  /** Successive non-overlapping matches in `s`, where `s` begins at absolute position `at`. */
  function FindIter(ps: Patterns, s: Bytes, at: nat): seq<Match>
    decreases |s|
  {
    if s == [] then []
    else
      match Best(ps, s)
      case Some(id) =>
        [Match(at, at + |ps[id]|, id)] + FindIter(ps, s[|ps[id]|..], at + |ps[id]|)
      case None => FindIter(ps, s[1..], at + 1)
  }

  predicate OccursAt(p: Bytes, s: Bytes, k: nat) {
    k <= |s| && Starts(p, s[k..])
  }

  /** `m` is the leftmost occurrence of any pattern in `s`, and the longest that starts there. */
  ghost predicate LeftmostLongest(ps: Patterns, s: Bytes, at: nat, m: Match) {
    && at <= m.start < m.end <= at + |s| && m.id < |ps|
    && m.end - m.start == |ps[m.id]| && OccursAt(ps[m.id], s, m.start - at)
    && (forall k: nat, i :: k < m.start - at && 0 <= i < |ps| ==> !OccursAt(ps[i], s, k))
    && (forall i :: 0 <= i < |ps| && OccursAt(ps[i], s, m.start - at) ==> |ps[i]| <= |ps[m.id]|)
  }

  lemma OccursShift(p: Bytes, s: Bytes, k: nat)
    requires s != [] && p != [] && !Starts(p, s)
    ensures OccursAt(p, s, k) <==> k >= 1 && OccursAt(p, s[1..], k - 1)
  {
    if k == 0 { assert s[0..] == s; } else if k <= |s| { assert s[k..] == s[1..][k - 1..]; }
  }

  lemma LeftmostLongestShift(ps: Patterns, s: Bytes, at: nat, m: Match)
    requires s != [] && Best(ps, s).None?
    requires LeftmostLongest(ps, s[1..], at + 1, m)
    ensures LeftmostLongest(ps, s, at, m)
  {
    forall k: nat, i | 0 <= i < |ps|
      ensures OccursAt(ps[i], s, k) <==> k >= 1 && OccursAt(ps[i], s[1..], k - 1)
    {
      OccursShift(ps[i], s, k);
    }
  }

  lemma HeadMatchIsLeftmostLongest(ps: Patterns, s: Bytes, at: nat)
    requires Best(ps, s).Some?
    ensures var id := Best(ps, s).value; LeftmostLongest(ps, s, at, Match(at, at + |ps[id]|, id))
  {
    assert s[0..] == s;
  }

  lemma FindAtHead(ps: Patterns, s: Bytes, at: nat, m: Match, rest: Bytes)
    requires Best(ps, s) == Some(m.id) && m.start == at && m.end == at + |ps[m.id]| && rest == s[|ps[m.id]|..]
    ensures FindIter(ps, s, at) == [m] + FindIter(ps, rest, m.end)
  {
  }

  lemma MatchAtHead(ps: Patterns, s: Bytes, at: nat) returns (m: Match, rest: Bytes)
    requires Best(ps, s).Some?
    ensures at == m.start < m.end <= at + |s| && rest == s[m.end - at..]
    ensures Best(ps, s) == Some(m.id) && m.end == at + |ps[m.id]| && s == ps[m.id] + rest
    ensures FindIter(ps, s, at) == [m] + FindIter(ps, rest, m.end)
  {
    var id := Best(ps, s).value;
    m, rest := Match(at, at + |ps[id]|, id), s[|ps[id]|..];
    FindAtHead(ps, s, at, m, rest);
    assert Starts(ps[id], s);
  }

  lemma NoMatchAtHead(ps: Patterns, s: Bytes, at: nat)
    requires s != [] && Best(ps, s).None?
    ensures FindIter(ps, s, at) == FindIter(ps, s[1..], at + 1)
  {
  }

  /** `m` is the first of `all`, lies within `s` read from `at`, and the others are found in the `rest` after it. */
  predicate ResumesAfter(ps: Patterns, s: Bytes, at: nat, all: seq<Match>, m: Match, rest: Bytes) {
    && at <= m.start < m.end <= at + |s| && rest == s[m.end - at..]
    && all == [m] + FindIter(ps, rest, m.end)
  }

  lemma ResumesLater(ps: Patterns, s: Bytes, at: nat, all: seq<Match>, m: Match, rest: Bytes)
    requires s != [] && ResumesAfter(ps, s[1..], at + 1, all, m, rest)
    ensures ResumesAfter(ps, s, at, all, m, rest)
  {
    DropOneThen(s, m.end - at);
  }

  lemma {:induction false} SearchResumesAfterMatch(ps: Patterns, s: Bytes, at: nat, all: seq<Match>)
    returns (m: Match, rest: Bytes)
    requires all == FindIter(ps, s, at) && all != []
    ensures ResumesAfter(ps, s, at, all, m, rest)
    decreases |s|
  {
    if Best(ps, s).Some? {
      m, rest := MatchAtHead(ps, s, at);
    } else {
      NoMatchAtHead(ps, s, at);
      m, rest := SearchResumesAfterMatch(ps, s[1..], at + 1, all);
      ResumesLater(ps, s, at, all, m, rest);
    }
  }

  lemma DropOneThen(s: Bytes, n: nat)
    requires 1 <= n <= |s|
    ensures s[1..][n - 1..] == s[n..]
  {
  }

  lemma {:induction false} FirstMatchIsLeftmostLongest(ps: Patterns, s: Bytes, at: nat)
    requires FindIter(ps, s, at) != []
    ensures LeftmostLongest(ps, s, at, FindIter(ps, s, at)[0])
    decreases |s|
  {
    if Best(ps, s).Some? {
      HeadMatchIsLeftmostLongest(ps, s, at);
    } else {
      FirstMatchIsLeftmostLongest(ps, s[1..], at + 1);
      LeftmostLongestShift(ps, s, at, FindIter(ps, s, at)[0]);
    }
  }

  /** The matches found are leftmost-longest, and the search resumes at the end of each. */
  lemma FindIterIsLeftmostLongest(ps: Patterns, s: Bytes, at: nat) returns (m: Match, rest: Bytes)
    requires FindIter(ps, s, at) != []
    ensures LeftmostLongest(ps, s, at, m) && rest == s[m.end - at..]
    ensures FindIter(ps, s, at) == [m] + FindIter(ps, rest, m.end)
  {
    FirstMatchIsLeftmostLongest(ps, s, at);
    m, rest := SearchResumesAfterMatch(ps, s, at, FindIter(ps, s, at));
  }

  /** No match is reported only when no pattern occurs anywhere. */
  lemma {:induction false} FindIterMissesNothing(ps: Patterns, s: Bytes, at: nat)
    requires FindIter(ps, s, at) == []
    ensures forall k: nat, i :: 0 <= i < |ps| ==> !OccursAt(ps[i], s, k)
    decreases |s|
  {
    if s != [] {
      FindIterMissesNothing(ps, s[1..], at + 1);
      forall k: nat, i | 0 <= i < |ps|
        ensures !OccursAt(ps[i], s, k)
      {
        OccursShift(ps[i], s, k);
      }
    }
  }

  // ---------- The simple form: one pass over a complete input ----------

  /** Leftmost-longest redaction of a complete input. */
  function Scan(ps: Patterns, s: Bytes): seq<Token>
    decreases |s|
  {
    if s == [] then []
    else
      match Best(ps, s)
      case Some(id) => [Mark(id)] + Scan(ps, s[|ps[id]|..])
      case None => [Raw(s[0])] + Scan(ps, s[1..])
  }

  function RawAll(s: Bytes): (ts: seq<Token>)
    ensures |ts| == |s|
    ensures forall i :: 0 <= i < |s| ==> ts[i] == Raw(s[i])
  {
    seq(|s|, i requires 0 <= i < |s| => Raw(s[i]))
  }

  /** The input that a token sequence stands for. */
  function Unredact(ps: Patterns, ts: seq<Token>): Bytes
    requires forall t :: t in ts && t.Mark? ==> t.id < |ps|
  {
    if ts == [] then []
    else (if ts[0].Raw? then [ts[0].b] else ps[ts[0].id]) + Unredact(ps, ts[1..])
  }

  ghost predicate Marked(ps: Patterns, ts: seq<Token>) {
    forall t :: t in ts && t.Mark? ==> t.id < |ps|
  }

  /** The tokens from `k` on pass the bytes `q` through. */
  ghost predicate ReadsRaw(q: Bytes, ts: seq<Token>, k: nat) {
    k + |q| <= |ts| && forall j :: k <= j < k + |q| ==> ts[j] == Raw(q[j - k])
  }

  /** No unbroken run of passed-through bytes spells a secret. */
  ghost predicate NoSecretGap(ps: Patterns, ts: seq<Token>) {
    forall i, k: nat :: 0 <= i < |ps| ==> !ReadsRaw(ps[i], ts, k)
  }

  // ---------- The chunked form ----------

  function MaxLen(ps: Patterns): (m: nat)
    ensures forall i :: 0 <= i < |ps| ==> |ps[i]| <= m
    ensures ps == [] <==> m == 0
    ensures ps != [] ==> exists i :: 0 <= i < |ps| && |ps[i]| == m
  {
    if ps == [] then 0
    else
      var rest := MaxLen(ps[1..]);
      assert forall i :: 1 <= i < |ps| ==> ps[i] == ps[1..][i - 1];
      if |ps[0]| < rest then rest else |ps[0]|
  }

  /** No pattern occurs anywhere in `s`. */
  predicate Clear(ps: Patterns, s: Bytes) {
    s == [] || (Best(ps, s).None? && Clear(ps, s[1..]))
  }

  /** What a call that sees `s` (carried tail plus new chunk) hands out. */
  function Emit(ps: Patterns, s: Bytes): seq<Token>
    decreases |s|
  {
    if s == [] then []
    else
      match Best(ps, s)
      case Some(id) => [Mark(id)] + Emit(ps, s[|ps[id]|..])
      case None => if Clear(ps, s) && |s| < MaxLen(ps) then [] else [Raw(s[0])] + Emit(ps, s[1..])
  }

  /** What that call carries over. */
  function Held(ps: Patterns, s: Bytes): Bytes
    decreases |s|
  {
    if s == [] then []
    else
      match Best(ps, s)
      case Some(id) => Held(ps, s[|ps[id]|..])
      case None => if Clear(ps, s) && |s| < MaxLen(ps) then s else Held(ps, s[1..])
  }

  /** All tokens handed out for `chunks` followed by a flush, starting with `pending` carried. */
  function Stream(ps: Patterns, pending: Bytes, chunks: seq<Bytes>): seq<Token>
    decreases |chunks|
  {
    if chunks == [] then RawAll(pending)
    else
      var seen := pending + chunks[0];
      Emit(ps, seen) + Stream(ps, Held(ps, seen), chunks[1..])
  }

  // ---------- Every secret set: tokens account for the input, gaps are clean ----------

  lemma {:induction false} UnredactAppend(ps: Patterns, a: seq<Token>, b: seq<Token>)
    requires Marked(ps, a) && Marked(ps, b)
    ensures Marked(ps, a + b)
    ensures Unredact(ps, a + b) == Unredact(ps, a) + Unredact(ps, b)
  {
    if a == [] {
      assert a + b == b;
    } else {
      assert (a + b)[1..] == a[1..] + b;
      UnredactAppend(ps, a[1..], b);
      AppendAssoc(if a[0].Raw? then [a[0].b] else ps[a[0].id], Unredact(ps, a[1..]), Unredact(ps, b));
    }
  }

  lemma {:induction false} UnredactRaw(ps: Patterns, s: Bytes)
    ensures Marked(ps, RawAll(s)) && Unredact(ps, RawAll(s)) == s
  {
    if s != [] {
      assert RawAll(s)[1..] == RawAll(s[1..]);
      UnredactRaw(ps, s[1..]);
    }
  }

  /** Handing out now and carrying the rest loses nothing of the one-pass scan of what was seen. */
  lemma {:induction false} EmitThenHeldIsScan(ps: Patterns, s: Bytes)
    ensures Emit(ps, s) + RawAll(Held(ps, s)) == Scan(ps, s)
    decreases |s|
  {
    if s == [] {
      assert Emit(ps, s) == [] && RawAll(Held(ps, s)) == [];
    } else if Best(ps, s).Some? {
      var id := Best(ps, s).value;
      var rest := s[|ps[id]|..];
      EmitThenHeldIsScan(ps, rest);
      assert Emit(ps, s) == [Mark(id)] + Emit(ps, rest) && Held(ps, s) == Held(ps, rest);
      AppendAssoc([Mark(id)], Emit(ps, rest), RawAll(Held(ps, rest)));
    } else if Clear(ps, s) && |s| < MaxLen(ps) {
      ClearScan(ps, s);
      assert Emit(ps, s) == [] && [] + RawAll(s) == RawAll(s);
    } else {
      var rest := s[1..];
      EmitThenHeldIsScan(ps, rest);
      assert Emit(ps, s) == [Raw(s[0])] + Emit(ps, rest) && Held(ps, s) == Held(ps, rest);
      AppendAssoc([Raw(s[0])], Emit(ps, rest), RawAll(Held(ps, rest)));
    }
  }

  lemma {:induction false} ClearScan(ps: Patterns, s: Bytes)
    requires Clear(ps, s)
    ensures Scan(ps, s) == RawAll(s)
  {
    if s != [] {
      ClearScan(ps, s[1..]);
      assert RawAll(s) == [Raw(s[0])] + RawAll(s[1..]);
    }
  }

  lemma {:induction false} ScanAccounts(ps: Patterns, s: Bytes)
    ensures Marked(ps, Scan(ps, s)) && Unredact(ps, Scan(ps, s)) == s
    decreases |s|
  {
    if s == [] {
    } else if Best(ps, s).Some? {
      var p := ps[Best(ps, s).value];
      ScanAccounts(ps, s[|p|..]);
      assert s == p + s[|p|..];
      assert Scan(ps, s)[1..] == Scan(ps, s[|p|..]);
    } else {
      ScanAccounts(ps, s[1..]);
      assert Scan(ps, s)[1..] == Scan(ps, s[1..]);
    }
  }

  /** Where the scan passes bytes through from its start, they are the input's own. */
  lemma {:induction false} ScanRawPrefix(ps: Patterns, s: Bytes, q: Bytes)
    requires ReadsRaw(q, Scan(ps, s), 0)
    ensures Starts(q, s)
    ensures q != [] ==> Best(ps, s).None?
    decreases |s|
  {
    if q != [] {
      assert Scan(ps, s)[0] == Raw(q[0]);
      var rest := Scan(ps, s[1..]);
      assert Scan(ps, s) == [Raw(s[0])] + rest;
      ReadsRawAfter(q[1..], [Raw(s[0])], rest, 1);
      ScanRawPrefix(ps, s[1..], q[1..]);
      assert q == [q[0]] + q[1..] && s == [s[0]] + s[1..];
    }
  }

  lemma ReadsRawAfter(q: Bytes, a: seq<Token>, b: seq<Token>, k: nat)
    requires k >= |a|
    ensures ReadsRaw(q, a + b, k) <==> ReadsRaw(q, b, k - |a|)
  {
    assert forall j :: 0 <= j < |b| ==> b[j] == (a + b)[|a| + j];
  }

  lemma {:induction false} ScanHasNoSecretGap(ps: Patterns, s: Bytes)
    ensures NoSecretGap(ps, Scan(ps, s))
    decreases |s|
  {
    if s != [] {
      var ts := Scan(ps, s);
      var rest := if Best(ps, s).Some? then s[|ps[Best(ps, s).value]|..] else s[1..];
      assert ts == [ts[0]] + Scan(ps, rest);
      ScanHasNoSecretGap(ps, rest);
      forall i, k: nat | 0 <= i < |ps|
        ensures !ReadsRaw(ps[i], ts, k)
      {
        if k == 0 {
          if ReadsRaw(ps[i], ts, 0) { ScanRawPrefix(ps, s, ps[i]); }
        } else {
          ReadsRawAfter(ps[i], [ts[0]], Scan(ps, rest), k);
        }
      }
    }
  }

  lemma {:induction false} HeldIsShort(ps: Patterns, s: Bytes)
    ensures ps != [] ==> |Held(ps, s)| < MaxLen(ps)
    ensures ps == [] ==> Held(ps, s) == []
    decreases |s|
  {
    if s == [] {
    } else if Best(ps, s).Some? {
      HeldIsShort(ps, s[|ps[Best(ps, s).value]|..]);
    } else if Clear(ps, s) && |s| < MaxLen(ps) {
    } else {
      HeldIsShort(ps, s[1..]);
    }
  }

  /** A carried tail shorter than the longest secret could need starts right after a mark, or at the stream's start. */
  lemma {:induction false} ShortHeldFollowsMark(ps: Patterns, s: Bytes)
    ensures |Held(ps, s)| + 1 < MaxLen(ps) ==> Emit(ps, s) == [] || Emit(ps, s)[|Emit(ps, s)| - 1].Mark?
    decreases |s|
  {
    if s == [] {
    } else if Best(ps, s).Some? {
      ShortHeldFollowsMark(ps, s[|ps[Best(ps, s).value]|..]);
    } else if Clear(ps, s) && |s| < MaxLen(ps) {
    } else {
      ShortHeldFollowsMark(ps, s[1..]);
      HeldOfClear(ps, s);
      HeldOfClear(ps, s[1..]);
    }
  }

  lemma {:induction false} HeldOfClear(ps: Patterns, s: Bytes)
    ensures Clear(ps, s) && |s| + 1 >= MaxLen(ps) && ps != [] ==> |Held(ps, s)| + 1 == MaxLen(ps)
    ensures !Clear(ps, s) ==> Emit(ps, s) != []
    decreases |s|
  {
    if s != [] {
      HeldOfClear(ps, s[1..]);
    }
  }

  lemma {:induction false} ClearMeansNoOccurrence(ps: Patterns, s: Bytes)
    ensures Clear(ps, s) <==> forall k: nat, i :: 0 <= i < |ps| ==> !OccursAt(ps[i], s, k)
  {
    if s == [] {
    } else {
      ClearMeansNoOccurrence(ps, s[1..]);
      if Best(ps, s).Some? {
        assert s[0..] == s;
        assert OccursAt(ps[Best(ps, s).value], s, 0);
      } else {
        forall k: nat, i | 0 <= i < |ps|
          ensures OccursAt(ps[i], s, k) <==> k >= 1 && OccursAt(ps[i], s[1..], k - 1)
        {
          OccursShift(ps[i], s, k);
        }
        if !Clear(ps, s[1..]) {
          var k: nat, i :| 0 <= i < |ps| && OccursAt(ps[i], s[1..], k);
          assert OccursAt(ps[i], s, k + 1);
        }
      }
    }
  }

  /** What has been handed out and carried so far: no gap holds a secret, even together with the tail. */
  ghost predicate CleanSoFar(ps: Patterns, out: seq<Token>, pending: Bytes) {
    && NoSecretGap(ps, out + RawAll(pending))
    && (|pending| + 1 < MaxLen(ps) ==> out == [] || out[|out| - 1].Mark?)
  }

  /** A gap that starts in what earlier calls handed out, if it could spell a secret, ends within the tail. */
  lemma GapReachesBack(ps: Patterns, out: seq<Token>, pending: Bytes, chunk: Bytes, q: Bytes, k: nat)
    requires |pending| + 1 < MaxLen(ps) ==> out == [] || out[|out| - 1].Mark?
    requires k < |out| && |q| <= MaxLen(ps)
    requires ReadsRaw(q, out + Scan(ps, pending + chunk), k)
    ensures ReadsRaw(q, out + RawAll(pending), k)
  {
    var next := Scan(ps, pending + chunk);
    var ts, whole := out + next, out + RawAll(pending);
    var head := |out| - k;
    if |q| > head {
      var p := q[head..];
      assert ts[|out| - 1] == Raw(q[head - 1]);
      forall j | 0 <= j < |p| ensures next[j] == Raw(p[j]) {
        assert ts[|out| + j] == Raw(q[head + j]);
      }
      ScanRawPrefix(ps, pending + chunk, p);
      forall j | 0 <= j < |p| ensures pending[j] == p[j] {
        assert pending[j] == (pending + chunk)[j];
      }
    }
    forall j | k <= j < k + |q| ensures whole[j] == Raw(q[j - k]) {
      assert ts[j] == Raw(q[j - k]);
      if j >= |out| {
        assert whole[j] == Raw(pending[j - |out|]);
      }
    }
  }

  lemma CleanAcrossChunk(ps: Patterns, out: seq<Token>, pending: Bytes, chunk: Bytes)
    requires CleanSoFar(ps, out, pending)
    ensures NoSecretGap(ps, out + Scan(ps, pending + chunk))
  {
    var next := Scan(ps, pending + chunk);
    ScanHasNoSecretGap(ps, pending + chunk);
    forall i, k: nat | 0 <= i < |ps|
      ensures !ReadsRaw(ps[i], out + next, k)
    {
      if k >= |out| {
        ReadsRawAfter(ps[i], out, next, k);
      } else if ReadsRaw(ps[i], out + next, k) {
        GapReachesBack(ps, out, pending, chunk, ps[i], k);
      }
    }
  }

  lemma StepLeavesNoGap(ps: Patterns, out: seq<Token>, pending: Bytes, chunk: Bytes, seen: Bytes)
    requires CleanSoFar(ps, out, pending) && seen == pending + chunk
    ensures NoSecretGap(ps, out + Emit(ps, seen) + RawAll(Held(ps, seen)))
  {
    CleanAcrossChunk(ps, out, pending, chunk);
    EmitThenHeldIsScan(ps, seen);
    AppendAssoc(out, Emit(ps, seen), RawAll(Held(ps, seen)));
  }

  lemma StepEndsAtMark(ps: Patterns, out: seq<Token>, pending: Bytes, seen: Bytes)
    requires |pending| + 1 < MaxLen(ps) ==> out == [] || out[|out| - 1].Mark?
    requires |pending| <= |seen|
    ensures var all := out + Emit(ps, seen); |Held(ps, seen)| + 1 < MaxLen(ps) ==> all == [] || all[|all| - 1].Mark?
  {
    ShortHeldFollowsMark(ps, seen);
    if Emit(ps, seen) == [] {
      EmitAccounts(ps, seen);
      assert Held(ps, seen) == seen;
      assert out + Emit(ps, seen) == out;
    }
  }

  lemma CleanStep(ps: Patterns, out: seq<Token>, pending: Bytes, chunk: Bytes)
    requires CleanSoFar(ps, out, pending)
    ensures CleanSoFar(ps, out + Emit(ps, pending + chunk), Held(ps, pending + chunk))
  {
    StepLeavesNoGap(ps, out, pending, chunk, pending + chunk);
    StepEndsAtMark(ps, out, pending, pending + chunk);
  }

  lemma {:induction false} StreamClean(ps: Patterns, out: seq<Token>, pending: Bytes, chunks: seq<Bytes>)
    requires CleanSoFar(ps, out, pending)
    ensures NoSecretGap(ps, out + Stream(ps, pending, chunks))
    decreases |chunks|
  {
    if chunks != [] {
      var seen := pending + chunks[0];
      CleanStep(ps, out, pending, chunks[0]);
      StreamClean(ps, out + Emit(ps, seen), Held(ps, seen), chunks[1..]);
      AppendAssoc(out, Emit(ps, seen), Stream(ps, Held(ps, seen), chunks[1..]));
    }
  }

  lemma EmitAccounts(ps: Patterns, s: Bytes)
    ensures Marked(ps, Emit(ps, s))
    ensures Unredact(ps, Emit(ps, s)) + Held(ps, s) == s
  {
    var emit, held := Emit(ps, s), Held(ps, s);
    EmitThenHeldIsScan(ps, s);
    ScanAccounts(ps, s);
    UnredactRaw(ps, held);
    assert forall t :: t in emit ==> t in emit + RawAll(held);
    UnredactAppend(ps, emit, RawAll(held));
  }

  lemma {:induction false} StreamAccounts(ps: Patterns, pending: Bytes, chunks: seq<Bytes>)
    ensures Marked(ps, Stream(ps, pending, chunks))
    ensures Unredact(ps, Stream(ps, pending, chunks)) == pending + Concat(chunks)
    decreases |chunks|
  {
    if chunks == [] {
      UnredactRaw(ps, pending);
    } else {
      var seen, rest := pending + chunks[0], chunks[1..];
      var emit, held := Emit(ps, seen), Held(ps, seen);
      var later := Stream(ps, held, rest);
      StreamAccounts(ps, held, rest);
      EmitAccounts(ps, seen);
      UnredactAppend(ps, emit, later);
      AppendAssoc(Unredact(ps, emit), held, Concat(rest));
      AppendAssoc(pending, chunks[0], Concat(rest));
    }
  }

  /**
    For every secret set, nested secrets included, and every chunking: replacing each mark by its
    secret gives back the input, and no gap between marks, however many chunks it spans, spells a secret.
  */
  lemma StreamIsSound(ps: Patterns, chunks: seq<Bytes>)
    ensures var ts := Stream(ps, [], chunks);
            Marked(ps, ts) && Unredact(ps, ts) == Concat(chunks) && NoSecretGap(ps, ts)
  {
    StreamAccounts(ps, [], chunks);
    assert [] + RawAll([]) == [];
    assert [] + Stream(ps, [], chunks) == Stream(ps, [], chunks);
    StreamClean(ps, [], [], chunks);
  }

  // ---------- When chunking is invisible ----------

  /** No secret occurs inside another and ends strictly before that other one's end. */
  ghost predicate NoEarlyInner(ps: Patterns) {
    forall i, j, k: nat :: 0 <= i < |ps| && 0 <= j < |ps| && OccursAt(ps[i], ps[j], k) ==> k + |ps[i]| >= |ps[j]|
  }

  /** Any split of any input gives the tokens of the one-pass scan. */
  ghost predicate Transparent(ps: Patterns) {
    forall chunks :: Stream(ps, [], chunks) == Scan(ps, Concat(chunks))
  }

  lemma BestSurvivesMoreInput(ps: Patterns, c: Bytes, d: Bytes)
    requires NoEarlyInner(ps) && Best(ps, c).Some?
    ensures Best(ps, c + d) == Best(ps, c)
  {
    var id := Best(ps, c).value;
    forall i | 0 <= i < |ps| && Starts(ps[i], c + d)
      ensures Starts(ps[i], c)
    {
      assert ps[i][0..] == ps[i];
      assert |ps[i]| > |ps[id]| ==> OccursAt(ps[id], ps[i], 0);
    }
    assert Starts(ps[id], c + d);
    var id' := Best(ps, c + d).value;
    assert Starts(ps[id'], c);
  }

  lemma NoHeadMatchSurvivesMoreInput(ps: Patterns, c: Bytes, d: Bytes)
    requires NoEarlyInner(ps) && Best(ps, c).None?
    requires !(Clear(ps, c) && |c| < MaxLen(ps))
    ensures Best(ps, c + d).None?
  {
    ClearMeansNoOccurrence(ps, c);
    forall q | q in ps ensures !Starts(q, c + d) {
      if |q| <= |c| {
        assert Starts(q, c + d) ==> Starts(q, c);
      } else {
        var k: nat, i :| 0 <= i < |ps| && OccursAt(ps[i], c, k);
        LongerStartHolds(ps[i], c, d, q, k);
      }
    }
  }

  lemma LongerStartHolds(p: Bytes, c: Bytes, d: Bytes, q: Bytes, k: nat)
    requires OccursAt(p, c, k) && |q| > |c|
    ensures Starts(q, c + d) ==> OccursAt(p, q, k) && k + |p| < |q|
  {
    if Starts(q, c + d) {
      assert c == q[..|c|];
      assert q[k..][..|c| - k] == c[k..];
    }
  }

  lemma MatchGoesOut(ps: Patterns, s: Bytes, id: nat, rest: Bytes)
    requires Best(ps, s) == Some(id) && rest == s[|ps[id]|..]
    ensures Emit(ps, s) == [Mark(id)] + Emit(ps, rest) && Held(ps, s) == Held(ps, rest)
            && Scan(ps, s) == [Mark(id)] + Scan(ps, rest)
  {
  }

  lemma ByteGoesOut(ps: Patterns, s: Bytes, rest: Bytes)
    requires s != [] && Best(ps, s).None? && rest == s[1..]
    ensures Scan(ps, s) == [Raw(s[0])] + Scan(ps, rest)
    ensures !(Clear(ps, s) && |s| < MaxLen(ps))
            ==> Emit(ps, s) == [Raw(s[0])] + Emit(ps, rest) && Held(ps, s) == Held(ps, rest)
  {
  }

  lemma DropOfSum(c: Bytes, d: Bytes, n: nat)
    requires n <= |c|
    ensures (c + d)[n..] == c[n..] + d
  {
  }

  lemma SplitsAlike(t: Token, emit: seq<Token>, tail: seq<Token>, whole: seq<Token>)
    requires whole == emit + tail
    ensures [t] + whole == [t] + emit + tail
  {
  }

  lemma SplitsAfterMatch(ps: Patterns, c: Bytes, d: Bytes, all: Bytes, id: nat, rest: Bytes, later: Bytes)
    requires NoEarlyInner(ps) && all == c + d && Best(ps, c) == Some(id)
    requires rest == c[|ps[id]|..] && later == all[|ps[id]|..]
    requires Scan(ps, later) == Emit(ps, rest) + Scan(ps, Held(ps, rest) + d)
    ensures Scan(ps, all) == Emit(ps, c) + Scan(ps, Held(ps, c) + d)
  {
    BestSurvivesMoreInput(ps, c, d);
    MatchGoesOut(ps, c, id, rest);
    MatchGoesOut(ps, all, id, later);
    SplitsAlike(Mark(id), Emit(ps, rest), Scan(ps, Held(ps, rest) + d), Scan(ps, later));
  }

  lemma SplitsAfterByte(ps: Patterns, c: Bytes, d: Bytes, all: Bytes, rest: Bytes, later: Bytes)
    requires NoEarlyInner(ps) && all == c + d && c != [] && Best(ps, c).None? && !(Clear(ps, c) && |c| < MaxLen(ps))
    requires rest == c[1..] && later == all[1..]
    requires Scan(ps, later) == Emit(ps, rest) + Scan(ps, Held(ps, rest) + d)
    ensures Scan(ps, all) == Emit(ps, c) + Scan(ps, Held(ps, c) + d)
  {
    NoHeadMatchSurvivesMoreInput(ps, c, d);
    ByteGoesOut(ps, c, rest);
    ByteGoesOut(ps, all, later);
    SplitsAlike(Raw(c[0]), Emit(ps, rest), Scan(ps, Held(ps, rest) + d), Scan(ps, later));
  }

  /** Reading `c` first and `d` afterwards is reading `c + d`. */
  lemma {:induction false} ScanSplits(ps: Patterns, c: Bytes, d: Bytes)
    requires NoEarlyInner(ps)
    ensures Scan(ps, c + d) == Emit(ps, c) + Scan(ps, Held(ps, c) + d)
    decreases |c|
  {
    if c == [] {
      assert c + d == d;
    } else if Best(ps, c).Some? {
      var id := Best(ps, c).value;
      ScanSplits(ps, c[|ps[id]|..], d);
      DropOfSum(c, d, |ps[id]|);
      SplitsAfterMatch(ps, c, d, c + d, id, c[|ps[id]|..], c[|ps[id]|..] + d);
    } else if Clear(ps, c) && |c| < MaxLen(ps) {
      assert Emit(ps, c) == [] && Held(ps, c) == c;
    } else {
      ScanSplits(ps, c[1..], d);
      DropOfSum(c, d, 1);
      SplitsAfterByte(ps, c, d, c + d, c[1..], c[1..] + d);
    }
  }

  lemma {:induction false} HeldIsClear(ps: Patterns, s: Bytes)
    ensures Clear(ps, Held(ps, s))
    decreases |s|
  {
    if s == [] {
    } else if Best(ps, s).Some? {
      HeldIsClear(ps, s[|ps[Best(ps, s).value]|..]);
    } else if !(Clear(ps, s) && |s| < MaxLen(ps)) {
      HeldIsClear(ps, s[1..]);
    }
  }

  lemma {:induction false} StreamIsScan(ps: Patterns, pending: Bytes, chunks: seq<Bytes>)
    requires NoEarlyInner(ps) && Clear(ps, pending)
    ensures Stream(ps, pending, chunks) == Scan(ps, pending + Concat(chunks))
    decreases |chunks|
  {
    if chunks == [] {
      ClearScan(ps, pending);
      assert pending + Concat(chunks) == pending;
    } else {
      var seen, rest := pending + chunks[0], chunks[1..];
      var held := Held(ps, seen);
      HeldIsClear(ps, seen);
      StreamIsScan(ps, held, rest);
      ScanSplits(ps, seen, Concat(rest));
      AppendAssoc(pending, chunks[0], Concat(rest));
    }
  }

  lemma ScanOfSecret(ps: Patterns, q: Bytes)
    requires q in ps
    ensures |Scan(ps, q)| == 1
  {
    assert Starts(q, q);
    assert q[|q|..] == [];
  }

  lemma StreamOfTwo(ps: Patterns, c: Bytes, d: Bytes)
    ensures Stream(ps, [], [c, d]) == Emit(ps, c) + Stream(ps, Held(ps, c), [d])
    ensures Concat([c, d]) == c + d
    ensures Concat([d]) == d
  {
    assert [] + c == c && [c, d][1..] == [d] && [d][1..] == [];
    assert Concat([d]) == d + Concat([]) == d;
  }

  lemma HeadIsNotClear(ps: Patterns, i: nat, q: Bytes, k: nat)
    requires i < |ps| && OccursAt(ps[i], q, k) && k + |ps[i]| < |q|
    ensures !Clear(ps, q[..k + |ps[i]|])
  {
    var c := q[..k + |ps[i]|];
    assert c[k..] == q[k..][..|ps[i]|];
    assert OccursAt(ps[i], c, k);
    ClearMeansNoOccurrence(ps, c);
  }

  /** A secret fed up to the end of one nested inside it is not marked as a whole. */
  lemma EarlyInnerShows(ps: Patterns, i: nat, j: nat, k: nat) returns (chunks: seq<Bytes>, at: nat)
    requires i < |ps| && j < |ps| && OccursAt(ps[i], ps[j], k) && k + |ps[i]| < |ps[j]|
    ensures Concat(chunks) == ps[j]
    ensures |Stream(ps, [], chunks)| > |Scan(ps, ps[j])| == 1
    ensures at < |Stream(ps, [], chunks)| && Stream(ps, [], chunks)[at].Mark?
  {
    var q := ps[j];
    var m := k + |ps[i]|;
    var c, d := q[..m], q[m..];
    chunks := [c, d];
    assert c + d == q;
    ScanOfSecret(ps, q);
    StreamOfTwo(ps, c, d);
    HeadIsNotClear(ps, i, q, k);
    at := OccurrenceIsMarked(ps, c);
    var later := Stream(ps, Held(ps, c), [d]);
    StreamAccounts(ps, Held(ps, c), [d]);
    assert |Unredact(ps, later)| > 0;
  }

  /** Chunking is invisible for every input and every split exactly when no secret has such an inner one. */
  lemma ChunkingIsInvisibleExactlyWhen(ps: Patterns)
    ensures Transparent(ps) <==> NoEarlyInner(ps)
  {
    if NoEarlyInner(ps) {
      forall chunks ensures Stream(ps, [], chunks) == Scan(ps, Concat(chunks)) {
        StreamIsScan(ps, [], chunks);
        assert [] + Concat(chunks) == Concat(chunks);
      }
    } else {
      var i, j, k: nat :| 0 <= i < |ps| && 0 <= j < |ps| && OccursAt(ps[i], ps[j], k) && k + |ps[i]| < |ps[j]|;
      var chunks, _ := EarlyInnerShows(ps, i, j, k);
      assert Stream(ps, [], chunks) != Scan(ps, Concat(chunks));
    }
  }

  /** `abcd` and `bc`: feeding `abc` and then `d` is not feeding `abcd`. */
  lemma NestedSecretsShowTheSplit()
    ensures var ps: Patterns := [[97, 98, 99, 100], [98, 99]];
            exists chunks: seq<Bytes> :: Concat(chunks) == [97, 98, 99, 100]
              && Stream(ps, [], chunks) != Scan(ps, Concat(chunks))
  {
    var ps: Patterns := [[97, 98, 99, 100], [98, 99]];
    assert ps[0][1..] == [98, 99, 100] && ps[1] == [98, 99, 100][..2];
    assert OccursAt(ps[1], ps[0], 1);
    var _, _ := EarlyInnerShows(ps, 1, 0, 1);
  }

  /** One `redact` of the whole input followed by a flush is the one-pass scan, for every secret set. */
  lemma OneShotIsScan(ps: Patterns, s: Bytes)
    ensures Stream(ps, [], [s]) == Scan(ps, s)
  {
    EmitThenHeldIsScan(ps, s);
    assert [] + s == s;
    assert [s][1..] == [];
  }

  // ---------- From tokens to output bytes ----------

  /** The bytes of `<redacted:`. */
  const MARK_OPEN: Bytes := [60, 114, 101, 100, 97, 99, 116, 101, 100, 58]
  const LESS: Byte := 60
  const GREATER: Byte := 62

  function Marker(name: Bytes): Bytes {
    MARK_OPEN + name + [GREATER]
  }

  /** Every mark in `ts` has a replacement text. */
  ghost predicate Named(names: seq<Bytes>, ts: seq<Token>) {
    forall t :: t in ts && t.Mark? ==> t.id < |names|
  }

  function Render(names: seq<Bytes>, ts: seq<Token>): Bytes
    requires Named(names, ts)
  {
    if ts == [] then []
    else (if ts[0].Raw? then [ts[0].b] else Marker(names[ts[0].id])) + Render(names, ts[1..])
  }

  lemma {:induction false} RenderAppend(names: seq<Bytes>, a: seq<Token>, b: seq<Token>)
    requires Named(names, a) && Named(names, b)
    ensures Named(names, a + b)
    ensures Render(names, a + b) == Render(names, a) + Render(names, b)
  {
    if a == [] {
      assert a + b == b;
    } else {
      assert (a + b)[1..] == a[1..] + b;
      RenderAppend(names, a[1..], b);
    }
  }

  lemma {:induction false} RenderRaw(names: seq<Bytes>, s: Bytes)
    ensures Named(names, RawAll(s)) && Render(names, RawAll(s)) == s
  {
    if s != [] {
      assert RawAll(s)[1..] == RawAll(s[1..]);
      RenderRaw(names, s[1..]);
    }
  }

  lemma RenderMark(names: seq<Bytes>, id: nat)
    requires id < |names|
    ensures Named(names, [Mark(id)]) && Render(names, [Mark(id)]) == Marker(names[id])
  {
    assert [Mark(id)][1..] == [];
  }

  /** Names that cannot be confused with the text around them in the output. */
  /** A mark reads `<redacted:NAME>`. */
  lemma MarkerReads(name: Bytes)
    ensures |Marker(name)| == 11 + |name| && Marker(name)[10..10 + |name|] == name
    ensures forall i :: 0 <= i < 10 ==> Marker(name)[i] as char == "<redacted:"[i]
    ensures Marker(name)[10 + |name|] as char == '>'
  {
  }

  ghost predicate PlainNames(names: seq<Bytes>) {
    forall i :: 0 <= i < |names| ==> LESS !in names[i] && GREATER !in names[i]
  }

  lemma {:induction false} MarkShowsInOutput(names: seq<Bytes>, ts: seq<Token>, i: nat)
    requires Named(names, ts) && i < |ts| && ts[i].Mark?
    ensures LESS in Render(names, ts)
  {
    if i == 0 {
      assert Render(names, ts)[0] == MARK_OPEN[0] == LESS;
    } else {
      MarkShowsInOutput(names, ts[1..], i - 1);
      assert Named(names, ts[1..]);
    }
  }

  lemma NameEndsAtBracket(a: Bytes, r: Bytes, n: Bytes)
    requires GREATER !in a && GREATER !in n
    requires a + [GREATER] + r == n + [GREATER]
    ensures a == n && r == []
  {
    var whole := a + [GREATER] + r;
    assert whole[|a|] == GREATER && whole[|n|] == GREATER;
    assert whole[..|n|] == n;
  }

  lemma MarkersDiffer(a: Bytes, r: Bytes, n: Bytes)
    requires GREATER !in a && GREATER !in n && Marker(a) + r == Marker(n)
    ensures a == n && r == []
  {
    AppendAssoc4(MARK_OPEN, a, [GREATER], r);
    AppendAssoc(MARK_OPEN, n, [GREATER]);
    SamePrefix(MARK_OPEN, a + [GREATER] + r, n + [GREATER]);
    NameEndsAtBracket(a, r, n);
  }

  lemma RawStartOfMarker(names: seq<Bytes>, ts: seq<Token>, n: Bytes, i: nat)
    requires Named(names, ts) && 0 < i < |ts| && ts[0].Raw? && ts[i].Mark?
    requires Render(names, ts) == Marker(n)
    ensures LESS in n
  {
    var later := Render(names, ts[1..]);
    MarkShowsInOutput(names, ts[1..], i - 1);
    assert Render(names, ts) == [ts[0].b] + later;
    TailOf(ts[0].b, later);
    MarkerTail(n);
  }

  lemma MarkerTail(n: Bytes)
    ensures LESS in Marker(n)[1..] ==> LESS in n
  {
    assert Marker(n)[1..] == MARK_OPEN[1..] + n + [GREATER];
    assert LESS !in MARK_OPEN[1..];
  }

  /** An output that is one marker, made with at least one mark, is made of that mark alone. */
  lemma MarkerComesFromOneMark(names: seq<Bytes>, ts: seq<Token>, n: Bytes, i: nat)
    requires PlainNames(names) && LESS !in n && GREATER !in n
    requires Named(names, ts) && i < |ts| && ts[i].Mark?
    requires Render(names, ts) == Marker(n)
    ensures |ts| == 1
  {
    if ts[0].Raw? {
      RawStartOfMarker(names, ts, n, i);
      assert false;
    } else {
      var a, rest := names[ts[0].id], Render(names, ts[1..]);
      assert Render(names, ts) == Marker(a) + rest;
      MarkersDiffer(a, rest, n);
    }
  }

  lemma {:induction false} OccurrenceIsMarked(ps: Patterns, s: Bytes) returns (i: nat)
    requires !Clear(ps, s)
    ensures i < |Emit(ps, s)| && Emit(ps, s)[i].Mark?
    decreases |s|
  {
    if Best(ps, s).Some? {
      i := 0;
    } else {
      var i' := OccurrenceIsMarked(ps, s[1..]);
      i := i' + 1;
    }
  }

  /** The output bytes are the same for every split of every input. */
  ghost predicate OutputTransparent(ps: Patterns, names: seq<Bytes>)
    requires |names| == |ps|
  {
    forall chunks :: Named(names, Stream(ps, [], chunks)) && Named(names, Scan(ps, Concat(chunks)))
                     && Render(names, Stream(ps, [], chunks)) == Render(names, Scan(ps, Concat(chunks)))
  }

  /** The same exactness for the bytes that leave the redactor, given names without angle brackets. */
  lemma OutputIsSplitIndependentExactlyWhen(ps: Patterns, names: seq<Bytes>)
    requires |names| == |ps| && PlainNames(names)
    ensures OutputTransparent(ps, names) <==> NoEarlyInner(ps)
  {
    ChunkingIsInvisibleExactlyWhen(ps);
    if NoEarlyInner(ps) {
      forall chunks
        ensures Named(names, Stream(ps, [], chunks)) && Stream(ps, [], chunks) == Scan(ps, Concat(chunks))
      {
        StreamAccounts(ps, [], chunks);
      }
    } else {
      var i, j, k: nat :| 0 <= i < |ps| && 0 <= j < |ps| && OccursAt(ps[i], ps[j], k) && k + |ps[i]| < |ps[j]|;
      EarlyInnerChangesOutput(ps, names, i, j, k);
    }
  }

  lemma EarlyInnerChangesOutput(ps: Patterns, names: seq<Bytes>, i: nat, j: nat, k: nat)
    requires |names| == |ps| && PlainNames(names)
    requires i < |ps| && j < |ps| && OccursAt(ps[i], ps[j], k) && k + |ps[i]| < |ps[j]|
    ensures !OutputTransparent(ps, names)
  {
    var chunks, at := EarlyInnerShows(ps, i, j, k);
    if OutputTransparent(ps, names) {
      var ts := Stream(ps, [], chunks);
      var id := Best(ps, ps[j]).value;
      assert Scan(ps, ps[j]) == [Mark(id)];
      RenderMark(names, id);
      assert Render(names, ts) == Render(names, Scan(ps, Concat(chunks)));
      MarkerComesFromOneMark(names, ts, names[id], at);
    }
  }

  // ---------- The imperative redactor ----------

  datatype Secret = Secret(name: Bytes, value: Bytes)

  class Redactor {
    const patterns: Patterns
    const names: seq<Bytes>
    const maxPatternLen: nat
    var pending: Bytes

    ghost predicate Valid()
      reads this
    {
      && |names| == |patterns| && maxPatternLen == MaxLen(patterns)
      && (patterns == [] ==> pending == [])
    }

    constructor (patterns: Patterns, names: seq<Bytes>)
      requires |names| == |patterns|
      ensures Valid() && pending == [] && this.patterns == patterns && this.names == names
    {
      this.patterns, this.names, maxPatternLen, pending := patterns, names, MaxLen(patterns), [];
    }

    /** `secrets` come in name order; one with an empty value is refused by name. */
    static method New(secrets: seq<Secret>) returns (r: Result<Redactor, Bytes>)
      ensures r.Err? <==> exists i :: 0 <= i < |secrets| && secrets[i].value == []
      ensures r.Err? ==> Secret(r.error, []) in secrets
      ensures r.Ok? ==> fresh(r.value) && r.value.Valid() && r.value.pending == []
      ensures r.Ok? ==> |r.value.patterns| == |secrets| && forall i :: 0 <= i < |secrets| ==>
                            Secret(r.value.names[i], r.value.patterns[i]) == secrets[i]
    {
      for i := 0 to |secrets|
        invariant forall k :: 0 <= k < i ==> secrets[k].value != []
      {
        if secrets[i].value == [] {
          return Err(secrets[i].name);
        }
      }
      var patterns := seq(|secrets|, i requires 0 <= i < |secrets| => secrets[i].value);
      var names := seq(|secrets|, i requires 0 <= i < |secrets| => secrets[i].name);
      var redactor := new Redactor(patterns, names);
      return Ok(redactor);
    }

    /** The loop over the matches: everything up to the end of the last one goes out. */
    method EmitMatches(combined: Bytes) returns (output: Bytes, pos: nat)
      requires Valid()
      ensures pos <= |combined| && FindIter(patterns, combined[pos..], pos) == []
      ensures Named(names, Emit(patterns, combined)) && Named(names, Emit(patterns, combined[pos..]))
      ensures Render(names, Emit(patterns, combined)) == output + Render(names, Emit(patterns, combined[pos..]))
      ensures Held(patterns, combined[pos..]) == Held(patterns, combined)
    {
      output, pos := [], 0;
      var mats := FindIter(patterns, combined, 0);
      EmitAccounts(patterns, combined);
      assert combined[0..] == combined;
      for i := 0 to |mats|
        invariant pos <= |combined|
        invariant mats[i..] == FindIter(patterns, combined[pos..], pos)
        invariant Named(names, Emit(patterns, combined[pos..]))
        invariant Render(names, Emit(patterns, combined)) == output + Render(names, Emit(patterns, combined[pos..]))
        invariant Held(patterns, combined[pos..]) == Held(patterns, combined)
      {
        LoopTurn(patterns, names, combined, pos, mats[i..]);
        output := output + combined[pos..mats[i].start] + Marker(names[mats[i].id]);
        pos := mats[i].end;
      }
    }

    method Redact(input: Bytes) returns (output: Bytes)
      requires Valid()
      modifies this`pending
      ensures Valid()
      ensures pending == Held(patterns, old(pending) + input)
      ensures Named(names, Emit(patterns, old(pending) + input))
      ensures output == Render(names, Emit(patterns, old(pending) + input))
    {
      if maxPatternLen == 0 {
        NoPatterns(patterns, input);
        RenderRaw(names, input);
        assert pending + input == input;
        return input;
      }
      var combined := pending + input;
      pending := [];
      var pos;
      output, pos := EmitMatches(combined);
      var tail := combined[pos..];
      var safeLen := if |tail| < maxPatternLen - 1 then 0 else |tail| - (maxPatternLen - 1);
      EmitWithoutMatch(patterns, tail, pos);
      RenderRaw(names, tail[..safeLen]);
      output := output + tail[..safeLen];
      pending := tail[safeLen..];
    }

    method Flush() returns (rest: Bytes)
      requires Valid()
      modifies this`pending
      ensures Valid() && pending == [] && rest == old(pending)
    {
      rest := pending;
      pending := [];
    }

    /** Feeding chunk after chunk and flushing at the end: what a caller of the stream does. */
    method RedactAll(chunks: seq<Bytes>) returns (output: Bytes)
      requires Valid()
      modifies this`pending
      ensures Valid() && pending == []
      ensures Named(names, Stream(patterns, old(pending), chunks))
      ensures output == Render(names, Stream(patterns, old(pending), chunks))
    {
      output := [];
      ghost var start := pending;
      StreamAccounts(patterns, pending, chunks);
      assert chunks[0..] == chunks;
      for i := 0 to |chunks|
        invariant Valid()
        invariant Named(names, Stream(patterns, pending, chunks[i..]))
        invariant Render(names, Stream(patterns, start, chunks))
               == output + Render(names, Stream(patterns, pending, chunks[i..]))
      {
        StreamTurn(patterns, names, pending, chunks, i);
        var more := Redact(chunks[i]);
        output := output + more;
      }
      RenderRaw(names, pending);
      var rest := Flush();
      output := output + rest;
    }
  }

  /** One chunk of a stream: what its call hands out, and the stream from what is then carried. */
  lemma StreamTurn(ps: Patterns, names: seq<Bytes>, pending: Bytes, chunks: seq<Bytes>, i: nat)
    requires |names| == |ps| && i < |chunks|
    ensures var seen, rest := pending + chunks[i], chunks[i + 1..];
            && Named(names, Stream(ps, pending, chunks[i..])) && Named(names, Emit(ps, seen))
            && Named(names, Stream(ps, Held(ps, seen), rest))
            && Render(names, Stream(ps, pending, chunks[i..]))
               == Render(names, Emit(ps, seen)) + Render(names, Stream(ps, Held(ps, seen), rest))
  {
    var seen, rest := pending + chunks[i], chunks[i + 1..];
    assert chunks[i..][0] == chunks[i] && chunks[i..][1..] == rest;
    StreamAccounts(ps, pending, chunks[i..]);
    EmitAccounts(ps, seen);
    StreamAccounts(ps, Held(ps, seen), rest);
    RenderAppend(names, Emit(ps, seen), Stream(ps, Held(ps, seen), rest));
  }

  lemma {:induction false} NoPatterns(ps: Patterns, s: Bytes)
    requires ps == []
    ensures Emit(ps, s) == RawAll(s) && Held(ps, s) == []
    decreases |s|
  {
    if s != [] {
      NoPatterns(ps, s[1..]);
      assert RawAll(s) == [Raw(s[0])] + RawAll(s[1..]);
    }
  }

  lemma RawJoins(b: Byte, gap: Bytes, id: nat, later: seq<Token>)
    ensures RawAll([b] + gap) + [Mark(id)] + later == [Raw(b)] + (RawAll(gap) + [Mark(id)] + later)
  {
    assert RawAll([b] + gap) == [Raw(b)] + RawAll(gap);
    AppendAssoc4([Raw(b)], RawAll(gap), [Mark(id)], later);
  }

  /** The search's next match `m` comes after `gap` and before `rest`; the gap passes through, then comes the mark. */
  ghost predicate EmitsUpTo(ps: Patterns, s: Bytes, at: nat, m: Match, gap: Bytes, rest: Bytes) {
    && m.start == at + |gap| && m.id < |ps| && m.end == m.start + |ps[m.id]|
    && s == gap + ps[m.id] + rest
    && FindIter(ps, s, at) == [m] + FindIter(ps, rest, m.end)
    && Emit(ps, s) == RawAll(gap) + [Mark(m.id)] + Emit(ps, rest)
    && Held(ps, s) == Held(ps, rest)
  }

  lemma NoGap(q: Bytes, rest: Bytes, id: nat, later: seq<Token>)
    ensures [] + q + rest == q + rest && RawAll([]) + [Mark(id)] + later == [Mark(id)] + later
  {
  }

  lemma EmitAtMatch(ps: Patterns, s: Bytes, at: nat, m: Match, rest: Bytes)
    requires Best(ps, s) == Some(m.id) && m.start == at && m.end == at + |ps[m.id]| && s == ps[m.id] + rest
    requires FindIter(ps, s, at) == [m] + FindIter(ps, rest, m.end)
    ensures EmitsUpTo(ps, s, at, m, [], rest)
  {
    assert rest == s[|ps[m.id]|..];
    MatchGoesOut(ps, s, m.id, rest);
    NoGap(ps[m.id], rest, m.id, Emit(ps, rest));
  }

  lemma BytesJoin(s: Bytes, gap: Bytes, q: Bytes, rest: Bytes)
    requires s != [] && s[1..] == gap + q + rest
    ensures s == [s[0]] + gap + q + rest
  {
    AppendAssoc4([s[0]], gap, q, rest);
  }

  lemma EmitBeforeMatch(ps: Patterns, s: Bytes, at: nat, tail: Bytes, m: Match, gap: Bytes, longer: Bytes, rest: Bytes)
    requires s != [] && Best(ps, s).None? && !Clear(ps, s) && tail == s[1..] && longer == [s[0]] + gap
    requires EmitsUpTo(ps, tail, at + 1, m, gap, rest) && FindIter(ps, s, at) == FindIter(ps, tail, at + 1)
    ensures EmitsUpTo(ps, s, at, m, longer, rest)
  {
    ByteGoesOut(ps, s, tail);
    RawJoins(s[0], gap, m.id, Emit(ps, rest));
    BytesJoin(s, gap, ps[m.id], rest);
  }

  lemma {:induction false} EmitUpToMatch(ps: Patterns, s: Bytes, at: nat) returns (m: Match, gap: Bytes, rest: Bytes)
    requires FindIter(ps, s, at) != []
    ensures EmitsUpTo(ps, s, at, m, gap, rest)
    decreases |s|
  {
    if Best(ps, s).Some? {
      gap := [];
      m, rest := MatchAtHead(ps, s, at);
      EmitAtMatch(ps, s, at, m, rest);
    } else {
      FindIterNeedsOccurrence(ps, s, at);
      NoMatchAtHead(ps, s, at);
      m, gap, rest := EmitUpToMatch(ps, s[1..], at + 1);
      EmitBeforeMatch(ps, s, at, s[1..], m, gap, [s[0]] + gap, rest);
      gap := [s[0]] + gap;
    }
  }

  /** One turn of the matching loop, in bytes. */
  lemma RenderUpToMatch(ps: Patterns, names: seq<Bytes>, s: Bytes, at: nat) returns (m: Match, gap: Bytes, rest: Bytes)
    requires FindIter(ps, s, at) != [] && |names| == |ps|
    ensures m.start == at + |gap| && m.id < |ps| && m.end == m.start + |ps[m.id]|
    ensures s == gap + ps[m.id] + rest
    ensures FindIter(ps, s, at) == [m] + FindIter(ps, rest, m.end)
    ensures Named(names, Emit(ps, s)) && Named(names, Emit(ps, rest))
    ensures Render(names, Emit(ps, s)) == gap + Marker(names[m.id]) + Render(names, Emit(ps, rest))
    ensures Held(ps, s) == Held(ps, rest)
  {
    m, gap, rest := EmitUpToMatch(ps, s, at);
    EmitAccounts(ps, s);
    EmitAccounts(ps, rest);
    RenderMark(names, m.id);
    RenderRaw(names, gap);
    RenderAppend(names, RawAll(gap), [Mark(m.id)]);
    RenderAppend(names, RawAll(gap) + [Mark(m.id)], Emit(ps, rest));
  }

  lemma LoopTurn(ps: Patterns, names: seq<Bytes>, combined: Bytes, pos: nat, mats: seq<Match>)
    requires pos <= |combined| && mats == FindIter(ps, combined[pos..], pos) && mats != [] && |names| == |ps|
    ensures var m := mats[0];
            && pos <= m.start <= m.end <= |combined| && m.id < |ps|
            && mats[1..] == FindIter(ps, combined[m.end..], m.end)
            && Named(names, Emit(ps, combined[pos..])) && Named(names, Emit(ps, combined[m.end..]))
            && Held(ps, combined[pos..]) == Held(ps, combined[m.end..])
            && forall out :: out + Render(names, Emit(ps, combined[pos..]))
                             == out + combined[pos..m.start] + Marker(names[m.id])
                               + Render(names, Emit(ps, combined[m.end..]))
  {
    var m, gap, rest := RenderUpToMatch(ps, names, combined[pos..], pos);
    assert mats[0] == m && mats[1..] == FindIter(ps, rest, m.end);
    assert combined[pos..m.start] == combined[pos..][..|gap|] == gap;
    assert combined[m.end..] == combined[pos..][|gap| + |ps[m.id]|..] == rest;
    forall out: Bytes
      ensures out + Render(names, Emit(ps, combined[pos..]))
              == out + gap + Marker(names[m.id]) + Render(names, Emit(ps, rest))
    {
      AppendAssoc4(out, gap, Marker(names[m.id]), Render(names, Emit(ps, rest)));
    }
  }

  lemma {:induction false} FindIterNeedsOccurrence(ps: Patterns, s: Bytes, at: nat)
    ensures FindIter(ps, s, at) == [] <==> Clear(ps, s)
    decreases |s|
  {
    if s != [] && Best(ps, s).None? {
      FindIterNeedsOccurrence(ps, s[1..], at + 1);
    }
  }

  /** After the last match: all but the last `MaxLen - 1` bytes go out. */
  lemma EmitWithoutMatch(ps: Patterns, s: Bytes, at: nat)
    requires FindIter(ps, s, at) == [] && ps != []
    ensures var safe := if |s| < MaxLen(ps) - 1 then 0 else |s| - (MaxLen(ps) - 1);
            Emit(ps, s) == RawAll(s[..safe]) && Held(ps, s) == s[safe..]
  {
    FindIterNeedsOccurrence(ps, s, at);
    if |s| < MaxLen(ps) || s == [] {
      ShortTailIsHeld(ps, s);
    } else {
      EmitClear(ps, s, |s| - (MaxLen(ps) - 1));
    }
  }

  lemma {:induction false} EmitClear(ps: Patterns, s: Bytes, safe: nat)
    requires Clear(ps, s) && ps != [] && |s| == safe + (MaxLen(ps) - 1)
    ensures Emit(ps, s) == RawAll(s[..safe]) && Held(ps, s) == s[safe..]
    decreases safe
  {
    if safe == 0 {
      ShortTailIsHeld(ps, s);
    } else {
      var tail := s[1..];
      OneByteIsSafe(ps, s);
      EmitClear(ps, tail, safe - 1);
      RawAllHead(s, safe);
      DropOneThen(s, safe);
    }
  }

  lemma OneByteIsSafe(ps: Patterns, s: Bytes)
    requires s != [] && |s| >= MaxLen(ps) && Best(ps, s).None?
    ensures Emit(ps, s) == [Raw(s[0])] + Emit(ps, s[1..]) && Held(ps, s) == Held(ps, s[1..])
  {
  }

  lemma ShortTailIsHeld(ps: Patterns, s: Bytes)
    requires Clear(ps, s) && (s == [] || |s| < MaxLen(ps))
    ensures Emit(ps, s) == RawAll(s[..0]) && Held(ps, s) == s[0..]
  {
    assert s[..0] == [] && s[0..] == s;
  }

  lemma RawAllHead(s: Bytes, n: nat)
    requires 1 <= n <= |s|
    ensures RawAll(s[..n]) == [Raw(s[0])] + RawAll(s[1..][..n - 1])
  {
  }
}

/**
  The pool over time. Events are the writing verbs, whole or, for a run's output, split into the check and the
  fetch that follows it so that other writers come between.
*/
module PoolHistory {
  import opened BranchPools
  import opened GitRefs
  import opened Wrappers

  datatype Event =
    | Mirror(hostRefs: Refs, branches: seq<string>, landed: set<nat>)
    | Accept(output: RunOutput, landed: set<nat>)
    | Check(output: RunOutput)
    | Fetch(output: RunOutput, landed: set<nat>)

  datatype State = State(refs: Refs, checked: set<RunOutput>)

  predicate Enabled(s: State, e: Event) {
    match e
    case Check(o) => TargetsFree(s.refs, o.runId, o.branch)
    case Fetch(o, _) => o in s.checked
    case _ => true
  }

  function Next(s: State, e: Event): State {
    match e
    case Mirror(hostRefs, branches, landed) => s.(refs := Mirrored(s.refs, MirrorUpdates(hostRefs, branches), landed))
    case Accept(o, landed) => s.(refs := AcceptedInto(s.refs, o, landed))
    case Check(o) => s.(checked := s.checked + {o})
    case Fetch(o, landed) => s.(refs := Fetched(s.refs, OutputUpdates(o), landed))
  }

  predicate Runs(s: State, events: seq<Event>)
    decreases |events|
  {
    events == [] || (Enabled(s, events[0]) && Runs(Next(s, events[0]), events[1..]))
  }

  function After(s: State, events: seq<Event>): State
    decreases |events|
  {
    if events == [] then s else After(Next(s, events[0]), events[1..])
  }

  lemma RunFirst(s: State, e: Event, rest: seq<Event>)
    ensures Runs(s, [e] + rest) <==> Enabled(s, e) && Runs(Next(s, e), rest)
    ensures After(s, [e] + rest) == After(Next(s, e), rest)
  {
    assert ([e] + rest)[1..] == rest;
  }

  predicate Whole(e: Event) {
    e.Mirror? || e.Accept?
  }

  // ---------- Single steps ----------

  lemma {:induction false} MirrorTouchesHostOnly(refs: Refs, updates: seq<Update>, landed: set<nat>, n: Name)
    requires !InHost(n) && forall i :: 0 <= i < |updates| ==> InHost(updates[i].name)
    ensures n in Mirrored(refs, updates, landed) <==> n in refs
    ensures n in refs ==> Mirrored(refs, updates, landed)[n] == refs[n]
    decreases |updates|
  {
    if updates != [] {
      MirrorTouchesHostOnly(refs, updates[..|updates| - 1], landed, n);
    }
  }

  lemma MirrorNamesAreHost(hostRefs: Refs, branches: seq<string>)
    ensures forall i :: 0 <= i < |MirrorUpdates(hostRefs, branches)| ==>
              InHost(MirrorUpdates(hostRefs, branches)[i].name)
  {
    assert forall b: string :: InHost(HostName(b)) by {
      forall b: string ensures InHost(HostName(b)) { assert HostName(b).text[..5] == RESERVED_HOST; }
    }
  }

  /** A fetch without force keeps every ref and moves it forward at most, when no ref is a target twice. */
  lemma {:induction false} FetchMovesForward(refs: Refs, updates: seq<Update>, landed: set<nat>, n: Name)
    requires n in refs && forall i, j :: 0 <= i < j < |updates| ==> updates[i].name != updates[j].name
    ensures n in Fetched(refs, updates, landed) && IsAncestor(refs[n], Fetched(refs, updates, landed)[n])
    ensures (forall i :: 0 <= i < |updates| ==> updates[i].name != n) ==> Fetched(refs, updates, landed)[n] == refs[n]
    decreases |updates|
  {
    if updates != [] {
      var k := |updates| - 1;
      FetchMovesForward(refs, updates[..k], landed, n);
      assert forall i :: 0 <= i < k ==> updates[..k][i].name == updates[i].name;
    }
  }

  lemma OutputTargetsDiffer(o: RunOutput)
    requires o.branch.Some? ==> !InRuns(o.branch.value)
    ensures var u := OutputUpdates(o); forall i, j :: 0 <= i < j < |u| ==> u[i].name != u[j].name
  {
    assert AuditName(o.runId).text[..5] == RESERVED_RUNS;
  }

  /** An output whose branch is not a reserved name. */
  predicate Legal(o: RunOutput) {
    o.branch.Some? ==> !InRuns(o.branch.value) && !InHost(o.branch.value)
  }

  /** Only checked outputs are fetched, so their branches are never reserved names. */
  ghost predicate CheckedAreLegal(s: State) {
    forall o :: o in s.checked ==> Legal(o)
  }

  lemma StepMovesForward(s: State, e: Event, n: Name)
    requires Enabled(s, e) && CheckedAreLegal(s) && n in s.refs && !InHost(n)
    ensures CheckedAreLegal(Next(s, e))
    ensures n in Next(s, e).refs && IsAncestor(s.refs[n], Next(s, e).refs[n])
    ensures Whole(e) ==> Next(s, e).refs[n] == s.refs[n]
  {
    match e
    case Mirror(hostRefs, branches, landed) =>
      MirrorNamesAreHost(hostRefs, branches);
      MirrorTouchesHostOnly(s.refs, MirrorUpdates(hostRefs, branches), landed, n);
    case Accept(o, landed) =>
      if TargetsFree(s.refs, o.runId, o.branch) {
        AcceptWrites(s.refs, o, landed);
      }
    case Check(o) =>
    case Fetch(o, landed) =>
      OutputTargetsDiffer(o);
      FetchMovesForward(s.refs, OutputUpdates(o), landed, n);
  }

  // ---------- Whole histories ----------

  /**
    In every history, with checks and fetches interleaved at will, a ref outside `host/` is never lost and only moves
    to a descendant.
  */
  lemma {:induction false} OnlyForward(s: State, events: seq<Event>, n: Name)
    requires Runs(s, events) && CheckedAreLegal(s) && n in s.refs && !InHost(n)
    ensures n in After(s, events).refs && IsAncestor(s.refs[n], After(s, events).refs[n])
    decreases |events|
  {
    if events != [] {
      var next := Next(s, events[0]);
      StepMovesForward(s, events[0], n);
      OnlyForward(next, events[1..], n);
      AncestorsCompose(s.refs[n], next.refs[n], After(s, events).refs[n]);
    }
  }

  /** While verbs run one at a time, a ref outside `host/` never changes once it is written. */
  lemma {:induction false} NeverRewritten(s: State, events: seq<Event>, n: Name)
    requires (forall i :: 0 <= i < |events| ==> Whole(events[i])) && CheckedAreLegal(s) && n in s.refs && !InHost(n)
    ensures n in After(s, events).refs && After(s, events).refs[n] == s.refs[n]
    decreases |events|
  {
    if events != [] {
      StepMovesForward(s, events[0], n);
      NeverRewritten(Next(s, events[0]), events[1..], n);
    }
  }

  /** The audit ref and the output branch of a run whose output was taken in agree from then on. */
  lemma AuditAndOutputAgree(s: State, o: RunOutput, events: seq<Event>)
    requires CheckedAreLegal(s) && TargetsFree(s.refs, o.runId, o.branch)
    requires forall i :: 0 <= i < |events| ==> Whole(events[i])
    ensures HoldsOutput(After(Next(s, Accept(o, {0, 1})), events).refs, o)
  {
    var taken := Next(s, Accept(o, {0, 1}));
    AcceptWrites(s.refs, o, {0, 1});
    assert HoldsOutput(taken.refs, o);
    assert !InHost(AuditName(o.runId)) by { assert AuditName(o.runId).text[0] == 'r' && RESERVED_HOST[0] == 'h'; }
    NeverRewritten(taken, events, AuditName(o.runId));
    if o.branch.Some? {
      NeverRewritten(taken, events, o.branch.value);
    }
  }

  // ---------- When a ref can be rewritten ----------

  const EMPTY := State(map[], {})

  predicate Targets(o: RunOutput, n: Name) {
    n == AuditName(o.runId) || o.branch == Some(n)
  }

  lemma TargetsAreNotHost(o: RunOutput, n: Name)
    requires Legal(o) && Targets(o, n)
    ensures !InHost(n)
  {
    assert AuditName(o.runId).text[0] == 'r' && RESERVED_HOST[0] == 'h';
  }

  /** What a fetch leaves at a name: what was there, or the output's head at one of its targets, moved forward. */
  lemma FetchedAt(refs: Refs, o: RunOutput, landed: set<nat>, n: Name)
    requires Legal(o)
    ensures var after := Fetched(refs, OutputUpdates(o), landed);
            || View(after, n) == View(refs, n)
            || (Targets(o, n) && View(after, n) == Some(o.head) && IsFastForward(refs, n, o.head))
    ensures Targets(o, n) && IsFastForward(refs, n, o.head) && {0, 1} <= landed
            ==> View(Fetched(refs, OutputUpdates(o), landed), n) == Some(o.head)
  {
    var audit := Update(AuditName(o.runId), o.head);
    OutputTargetsDiffer(o);
    assert [audit][..0] == [] && Fetched(refs, [], landed) == refs;
    if o.branch.Some? {
      var out := Update(o.branch.value, o.head);
      assert OutputUpdates(o) == [audit, out] && [audit, out][..1] == [audit];
      assert audit.name != out.name by { assert OutputUpdates(o)[0] == audit && OutputUpdates(o)[1] == out; }
    } else {
      assert OutputUpdates(o) == [audit];
    }
  }

  /** Whether `e` takes in no output but these. */
  predicate Over(outputs: iset<RunOutput>, e: Event) {
    e.Mirror? || e.output in outputs
  }

  /** A history over these outputs, mirrors included, whose last event changes a ref outside `host/` that was there. */
  ghost predicate Rewrites(outputs: iset<RunOutput>, events: seq<Event>, last: Event, n: Name) {
    && (forall i :: 0 <= i < |events| ==> Over(outputs, events[i])) && Over(outputs, last)
    && Runs(EMPTY, events) && Enabled(After(EMPTY, events), last)
    && !InHost(n) && n in After(EMPTY, events).refs
    && View(Next(After(EMPTY, events), last).refs, n) != View(After(EMPTY, events).refs, n)
  }

  /** Two outputs for one ref, the second's head a proper descendant of the first's. */
  predicate Overtakes(a: RunOutput, b: RunOutput, n: Name) {
    Legal(a) && Legal(b) && Targets(a, n) && Targets(b, n) && IsAncestor(a.head, b.head) && a.head != b.head
  }

  ghost predicate OwnerOf(outputs: iset<RunOutput>, o: RunOutput, n: Name, c: Commit) {
    o in outputs && Legal(o) && Targets(o, n) && o.head == c
  }

  /** Every ref outside `host/` is the head of an output that targets it. */
  ghost predicate Owned(outputs: iset<RunOutput>, s: State) {
    && (forall o :: o in s.checked ==> o in outputs && Legal(o))
    && (forall n :: n in s.refs && !InHost(n) ==> exists o :: OwnerOf(outputs, o, n, s.refs[n]))
  }

  lemma StepKeepsOwned(outputs: iset<RunOutput>, s: State, e: Event)
    requires Owned(outputs, s) && Over(outputs, e) && Enabled(s, e)
    ensures Owned(outputs, Next(s, e))
  {
    var next := Next(s, e);
    forall n | n in next.refs && !InHost(n)
      ensures exists o :: OwnerOf(outputs, o, n, next.refs[n])
    {
      if n in s.refs && next.refs[n] == s.refs[n] {
        var o :| OwnerOf(outputs, o, n, s.refs[n]);
        assert OwnerOf(outputs, o, n, next.refs[n]);
      } else if e.Mirror? {
        MirrorNamesAreHost(e.hostRefs, e.branches);
        MirrorTouchesHostOnly(s.refs, MirrorUpdates(e.hostRefs, e.branches), e.landed, n);
      } else {
        FetchedAt(s.refs, e.output, e.landed, n);
        assert OwnerOf(outputs, e.output, n, next.refs[n]);
      }
    }
  }

  lemma {:induction false} RunKeepsOwned(outputs: iset<RunOutput>, s: State, events: seq<Event>)
    requires Owned(outputs, s) && Runs(s, events) && forall i :: 0 <= i < |events| ==> Over(outputs, events[i])
    ensures Owned(outputs, After(s, events))
    decreases |events|
  {
    if events != [] {
      StepKeepsOwned(outputs, s, events[0]);
      RunKeepsOwned(outputs, Next(s, events[0]), events[1..]);
    }
  }

  lemma RewriteNeedsOvertaking(outputs: iset<RunOutput>, events: seq<Event>, last: Event, n: Name)
    requires Rewrites(outputs, events, last, n)
    ensures exists a, b, m :: a in outputs && b in outputs && Overtakes(a, b, m)
  {
    var s := After(EMPTY, events);
    RunKeepsOwned(outputs, EMPTY, events);
    StepMovesForward(s, last, n);
    var a :| OwnerOf(outputs, a, n, s.refs[n]);
    FetchedAt(s.refs, last.output, last.landed, n);
    assert Overtakes(a, last.output, n);
  }

  lemma OvertakingRewrites(outputs: iset<RunOutput>, a: RunOutput, b: RunOutput, n: Name)
    requires a in outputs && b in outputs && Overtakes(a, b, n)
    ensures Rewrites(outputs, [Check(a), Check(b), Fetch(a, {0, 1})], Fetch(b, {0, 1}), n)
  {
    var s := After(EMPTY, [Check(a), Check(b), Fetch(a, {0, 1})]);
    TargetsAreNotHost(a, n);
    FirstIsHeld(a, b);
    HoldsAtTargets(s.refs, a);
    FetchedAt(s.refs, b, {0, 1}, n);
  }

  /**
    The check and the fetch are two steps. Some interleaving over these outputs rewrites a ref outside `host/` exactly
    when two of them share a target and one's head is a proper descendant of the other's.
  */
  lemma RefsCanBeRewrittenExactlyWhen(outputs: iset<RunOutput>)
    ensures (exists events, last, n :: Rewrites(outputs, events, last, n))
            <==> exists a, b, n :: a in outputs && b in outputs && Overtakes(a, b, n)
  {
    if events, last, n :| Rewrites(outputs, events, last, n) {
      RewriteNeedsOvertaking(outputs, events, last, n);
    }
    if a, b, n :| a in outputs && b in outputs && Overtakes(a, b, n) {
      OvertakingRewrites(outputs, a, b, n);
    }
  }

  /** A history over these outputs after which `o`'s refs are at its head, and no longer so after `last`. */
  ghost predicate Displaces(outputs: iset<RunOutput>, events: seq<Event>, last: Event, o: RunOutput) {
    && (forall i :: 0 <= i < |events| ==> Over(outputs, events[i])) && Over(outputs, last)
    && Runs(EMPTY, events) && Enabled(After(EMPTY, events), last)
    && HoldsOutput(After(EMPTY, events).refs, o) && !HoldsOutput(Next(After(EMPTY, events), last).refs, o)
  }

  lemma HoldsAtTargets(refs: Refs, o: RunOutput)
    ensures HoldsOutput(refs, o) <==> forall n :: Targets(o, n) ==> View(refs, n) == Some(o.head)
  {
    assert Targets(o, AuditName(o.runId));
    assert o.branch.Some? ==> Targets(o, o.branch.value);
  }

  lemma DisplacingOvertakes(outputs: iset<RunOutput>, events: seq<Event>, last: Event, o: RunOutput)
    requires Legal(o) && Displaces(outputs, events, last, o)
    ensures exists b, n :: b in outputs && Overtakes(o, b, n)
  {
    var s := After(EMPTY, events);
    RunKeepsOwned(outputs, EMPTY, events);
    HoldsAtTargets(s.refs, o);
    HoldsAtTargets(Next(s, last).refs, o);
    var n :| Targets(o, n) && View(Next(s, last).refs, n) != Some(o.head);
    TargetsAreNotHost(o, n);
    StepMovesForward(s, last, n);
    FetchedAt(s.refs, last.output, last.landed, n);
    assert Overtakes(o, last.output, n);
  }

  /** Checking two outputs and fetching the first puts its refs at its head. */
  lemma FirstIsHeld(a: RunOutput, b: RunOutput)
    requires Legal(a) && Legal(b)
    ensures Runs(EMPTY, [Check(a), Check(b), Fetch(a, {0, 1})])
    ensures HoldsOutput(After(EMPTY, [Check(a), Check(b), Fetch(a, {0, 1})]).refs, a)
    ensures b in After(EMPTY, [Check(a), Check(b), Fetch(a, {0, 1})]).checked
  {
    var s1 := Next(EMPTY, Check(a));
    var s2 := Next(s1, Check(b));
    var s3 := Next(s2, Fetch(a, {0, 1}));
    RunFirst(EMPTY, Check(a), [Check(b), Fetch(a, {0, 1})]);
    RunFirst(s1, Check(b), [Fetch(a, {0, 1})]);
    RunFirst(s2, Fetch(a, {0, 1}), []);
    assert [Check(a), Check(b), Fetch(a, {0, 1})] == [Check(a)] + ([Check(b)] + ([Fetch(a, {0, 1})] + []));
    assert [Check(b)] + [Fetch(a, {0, 1})] == [Check(b), Fetch(a, {0, 1})]
           && [Fetch(a, {0, 1})] + [] == [Fetch(a, {0, 1})];
    forall n | Targets(a, n) ensures View(s3.refs, n) == Some(a.head) {
      FetchedAt(s2.refs, a, {0, 1}, n);
    }
    HoldsAtTargets(s3.refs, a);
  }

  lemma OvertakingDisplaces(outputs: iset<RunOutput>, a: RunOutput, b: RunOutput, n: Name)
    requires a in outputs && b in outputs && Overtakes(a, b, n)
    ensures Displaces(outputs, [Check(a), Check(b), Fetch(a, {0, 1})], Fetch(b, {0, 1}), a)
  {
    var s := After(EMPTY, [Check(a), Check(b), Fetch(a, {0, 1})]);
    FirstIsHeld(a, b);
    HoldsAtTargets(s.refs, a);
    FetchedAt(s.refs, b, {0, 1}, n);
    HoldsAtTargets(Next(s, Fetch(b, {0, 1})).refs, a);
  }

  /**
    Audit ref and output branch of one of these outputs, once both at its head, can be displaced in some interleaving
    exactly when another of the outputs overtakes it.
  */
  lemma OutputCanBeDisplacedExactlyWhen(outputs: iset<RunOutput>, o: RunOutput)
    requires o in outputs && Legal(o)
    ensures (exists events, last :: Displaces(outputs, events, last, o))
            <==> exists b, n :: b in outputs && Overtakes(o, b, n)
  {
    if events, last :| Displaces(outputs, events, last, o) {
      DisplacingOvertakes(outputs, events, last, o);
    }
    if b, n :| b in outputs && Overtakes(o, b, n) {
      OvertakingDisplaces(outputs, o, b, n);
    }
  }

  /** Two runs that ask for one output branch, the second built on the first. */
  lemma RacingOutputsMoveTheBranch() returns (a: RunOutput, b: RunOutput, n: Name)
    ensures a.branch == b.branch == Some(n) && a.runId != b.runId
    ensures Rewrites(iset{a, b}, [Check(a), Check(b), Fetch(a, {0, 1})], Fetch(b, {0, 1}), n)
  {
    n := Name("out");
    var first := Commit(1, []);
    var second := Commit(2, [first]);
    a, b := Output("a", Some(n), first), Output("b", Some(n), second);
    assert n.text[0] == 'o';
    assert IsAncestor(second.parents[0], first) && IsAncestor(first, second);
    OvertakingRewrites(iset{a, b}, a, b, n);
  }
}

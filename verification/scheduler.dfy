/**
  The DAG scheduler: tasks run once every dependency has ended ok, tasks with a failed
  dependency are skipped, and what is left when nothing runs any more is unrunnable.

  `RunDag` is the loop. Which jobs finish before the loop looks again is up to the
  environment: any non-empty set of running jobs. `Run` describes one complete run with
  those choices listed, and the lemmas speak about every run.
*/
module Scheduler {
  import opened Sequences
  import W = Wrappers

  datatype Id = Id(name: string)

  datatype Task = Task(id: Id, deps: seq<Id>, outputBranch: W.Option<string>) {
    function ResolvedOutputBranch(): string {
      if outputBranch.Some? && outputBranch.value != "" then outputBranch.value else "runs/" + id.name
    }
  }

  /** What a job does if it is started: a commit in the Pool, no commit, or an error. */
  datatype Outcome = Finished(poolSha: string) | Raised(message: string)

  datatype TaskResult =
    | Ok(poolSha: string)
    | Failed(message: string)
    | Skipped(blockers: seq<Id>)
    | Unrunnable

  /** The refs handed to a task's spec builder. */
  datatype Spec = Spec(base: string, imports: seq<string>, output: string)

  datatype Graph = Graph(tasks: map<Id, Task>, baseRef: string, outcome: Id -> Outcome)

  datatype State = State(results: map<Id, TaskResult>, pending: set<Id>, running: set<Id>, specs: map<Id, Spec>)

  // ---------- The pieces of one turn of the loop ----------

  predicate AllResolved(results: map<Id, TaskResult>, deps: seq<Id>) {
    forall d :: d in deps ==> d in results
  }

  predicate AllOk(results: map<Id, TaskResult>, deps: seq<Id>) {
    forall d :: d in deps ==> d in results && results[d].Ok?
  }

  /** The dependencies that did not end ok, in the order they are declared. */
  function Blockers(results: map<Id, TaskResult>, deps: seq<Id>): (bs: seq<Id>)
    requires AllResolved(results, deps)
    ensures bs == [] <==> AllOk(results, deps)
    ensures forall d :: d in bs <==> d in deps && !results[d].Ok?
  {
    if deps == [] then []
    else (if results[deps[0]].Ok? then [] else [deps[0]]) + Blockers(results, deps[1..])
  }

  function Branches(tasks: map<Id, Task>, deps: seq<Id>): (bs: seq<string>)
    requires forall d :: d in deps ==> d in tasks
    ensures |bs| == |deps|
    ensures forall i :: 0 <= i < |deps| ==> bs[i] == tasks[deps[i]].ResolvedOutputBranch()
  {
    seq(|deps|, i requires 0 <= i < |deps| => tasks[deps[i]].ResolvedOutputBranch())
  }

  function ResolveBase(g: Graph, t: Task): (string, seq<string>)
    requires forall d :: d in t.deps ==> d in g.tasks
  {
    var branches := Branches(g.tasks, t.deps);
    if branches == [] then (g.baseRef, []) else (branches[0], branches[1..])
  }

  function SpecFor(g: Graph, t: Id): Spec
    requires t in g.tasks && forall d :: d in g.tasks[t].deps ==> d in g.tasks
  {
    var (base, imports) := ResolveBase(g, g.tasks[t]);
    Spec(base, imports, g.tasks[t].ResolvedOutputBranch())
  }

  function ResultOf(o: Outcome): TaskResult {
    match o
    case Finished(sha) => if sha != "" then Ok(sha) else Failed("produced no commits")
    case Raised(m) => Failed(m)
  }

  predicate Succeeds(g: Graph, t: Id) {
    ResultOf(g.outcome(t)).Ok?
  }

  function Ready(g: Graph, s: State): set<Id>
    requires s.pending <= g.tasks.Keys
  {
    set t | t in s.pending && AllResolved(s.results, g.tasks[t].deps)
  }

  function Start(g: Graph, s: State): set<Id>
    requires s.pending <= g.tasks.Keys
  {
    set t | t in s.pending && AllOk(s.results, g.tasks[t].deps)
  }

  function SkipAll(g: Graph, results: map<Id, TaskResult>, skip: set<Id>): (m: map<Id, TaskResult>)
    requires forall t :: t in skip ==> t in g.tasks && AllResolved(results, g.tasks[t].deps)
    ensures m.Keys == skip
    ensures forall t :: t in skip ==> m[t] == Skipped(Blockers(results, g.tasks[t].deps))
  {
    map t | t in skip :: Skipped(Blockers(results, g.tasks[t].deps))
  }

  function SpecAll(g: Graph, start: set<Id>): (m: map<Id, Spec>)
    requires forall t :: t in start ==> t in g.tasks && forall d :: d in g.tasks[t].deps ==> d in g.tasks
    ensures m.Keys == start
    ensures forall t :: t in start ==> m[t] == SpecFor(g, t)
  {
    map t | t in start :: SpecFor(g, t)
  }

  /** One launch round: every ready task starts, or is skipped for a blocker that is not ok. */
  function Launch(g: Graph, s: State): State
    requires s.pending <= g.tasks.Keys && s.results.Keys <= g.tasks.Keys
  {
    var ready, start := Ready(g, s), Start(g, s);
    State(s.results + SkipAll(g, s.results, ready - start), s.pending - ready, s.running + start,
          s.specs + SpecAll(g, start))
  }

  function Collected(g: Graph, done: set<Id>): (m: map<Id, TaskResult>)
    ensures m.Keys == done && forall t :: t in done ==> m[t] == ResultOf(g.outcome(t))
  {
    map t | t in done :: ResultOf(g.outcome(t))
  }

  function Complete(g: Graph, s: State, done: set<Id>): State {
    s.(results := s.results + Collected(g, done), running := s.running - done)
  }

  function GiveUp(s: State): (final: map<Id, TaskResult>)
    ensures final.Keys == s.results.Keys + s.pending
    ensures forall t :: t in final ==> final[t] == if t in s.pending then Unrunnable else s.results[t]
  {
    s.results + (map t | t in s.pending :: Unrunnable)
  }

  function Initial(g: Graph): State {
    State(map[], g.tasks.Keys, {}, map[])
  }

  // ---------- The invariant of the loop ----------

  /** Why a task has the result it has. */
  ghost predicate Explained(g: Graph, results: map<Id, TaskResult>, t: Id)
    requires t in g.tasks && t in results
  {
    var deps := g.tasks[t].deps;
    match results[t]
    case Ok(_) => results[t] == ResultOf(g.outcome(t)) && AllOk(results, deps)
    case Failed(_) => results[t] == ResultOf(g.outcome(t)) && AllOk(results, deps)
    case Skipped(bs) => AllResolved(results, deps) && bs == Blockers(results, deps) && bs != []
    case Unrunnable => false
  }

  predicate Ran(r: TaskResult) {
    r.Ok? || r.Failed?
  }

  ghost predicate Splits(a: set<Id>, b: set<Id>, c: set<Id>, all: set<Id>) {
    a + b + c == all && a !! b && a !! c && b !! c
  }

  ghost predicate Partition(g: Graph, s: State) {
    Splits(s.results.Keys, s.pending, s.running, g.tasks.Keys)
  }

  function RanIds(results: map<Id, TaskResult>): set<Id> {
    set t | t in results && Ran(results[t])
  }

  ghost predicate AllExplained(g: Graph, results: map<Id, TaskResult>) {
    forall t :: t in results ==> t in g.tasks && Explained(g, results, t)
  }

  /** A spec was built for exactly the started tasks, each with all dependencies ok. */
  ghost predicate SpecsRight(g: Graph, s: State)
    requires s.results.Keys <= g.tasks.Keys
  {
    && s.specs.Keys == s.running + RanIds(s.results)
    && (forall t :: t in s.specs ==> t in g.tasks && AllOk(s.results, g.tasks[t].deps) && s.specs[t] == SpecFor(g, t))
  }

  ghost predicate Inv(g: Graph, s: State) {
    Partition(g, s) && AllExplained(g, s.results) && SpecsRight(g, s)
  }

  /** `b` says all that `a` says. */
  ghost predicate Extends(a: map<Id, TaskResult>, b: map<Id, TaskResult>) {
    forall d :: d in a ==> d in b && b[d] == a[d]
  }

  lemma {:induction false} BlockersStable(a: map<Id, TaskResult>, b: map<Id, TaskResult>, deps: seq<Id>)
    requires AllResolved(a, deps) && Extends(a, b)
    ensures AllResolved(b, deps) && Blockers(a, deps) == Blockers(b, deps)
  {
    if deps != [] {
      BlockersStable(a, b, deps[1..]);
    }
  }

  lemma ExplainedStable(g: Graph, a: map<Id, TaskResult>, b: map<Id, TaskResult>, t: Id)
    requires t in g.tasks && t in a && Explained(g, a, t)
    requires Extends(a, b)
    ensures Explained(g, b, t)
  {
    if a[t].Skipped? {
      BlockersStable(a, b, g.tasks[t].deps);
    }
  }

  lemma LaunchExplains(g: Graph, s: State)
    requires Inv(g, s)
    ensures AllExplained(g, Launch(g, s).results) && Extends(s.results, Launch(g, s).results)
  {
    var l := Launch(g, s);
    forall t | t in l.results ensures t in g.tasks && Explained(g, l.results, t) {
      if t in s.results {
        ExplainedStable(g, s.results, l.results, t);
      } else {
        BlockersStable(s.results, l.results, g.tasks[t].deps);
      }
    }
  }

  lemma AllOkExtends(a: map<Id, TaskResult>, b: map<Id, TaskResult>, deps: seq<Id>)
    requires AllOk(a, deps) && Extends(a, b)
    ensures AllOk(b, deps)
  {
  }

  lemma LaunchMoves(done: set<Id>, pending: set<Id>, running: set<Id>, ready: set<Id>, start: set<Id>, all: set<Id>)
    requires Splits(done, pending, running, all) && start <= ready <= pending
    ensures Splits(done + (ready - start), pending - ready, running + start, all)
  {
  }

  lemma RanIdsAfter(a: map<Id, TaskResult>, more: map<Id, TaskResult>)
    requires a.Keys !! more.Keys
    ensures RanIds(a + more) == RanIds(a) + RanIds(more)
  {
  }

  lemma StartBuildsSpecs(g: Graph, s: State)
    requires Partition(g, s) && SpecsRight(g, s)
    ensures var start := Start(g, s); var m := s.specs + SpecAll(g, start);
            && m.Keys == s.running + start + RanIds(s.results)
            && forall t :: t in m ==> t in g.tasks && AllOk(s.results, g.tasks[t].deps) && m[t] == SpecFor(g, t)
  {
  }

  lemma LaunchKeepsPartition(g: Graph, s: State)
    requires Inv(g, s)
    ensures Partition(g, Launch(g, s))
  {
    var ready, start := Ready(g, s), Start(g, s);
    assert start <= ready;
    LaunchMoves(s.results.Keys, s.pending, s.running, ready, start, g.tasks.Keys);
    assert Launch(g, s).results.Keys == s.results.Keys + (ready - start);
  }

  lemma LaunchAddsNoRan(g: Graph, s: State)
    requires Inv(g, s)
    ensures RanIds(Launch(g, s).results) == RanIds(s.results)
  {
    var skips := SkipAll(g, s.results, Ready(g, s) - Start(g, s));
    assert RanIds(skips) == {};
    RanIdsAfter(s.results, skips);
  }

  lemma SpecsRightAfter(g: Graph, a: map<Id, TaskResult>, b: map<Id, TaskResult>, specs: map<Id, Spec>)
    requires a.Keys <= b.Keys <= g.tasks.Keys && Extends(a, b)
    requires forall t :: t in specs ==> t in g.tasks && AllOk(a, g.tasks[t].deps) && specs[t] == SpecFor(g, t)
    ensures forall t :: t in specs ==> t in g.tasks && AllOk(b, g.tasks[t].deps) && specs[t] == SpecFor(g, t)
  {
    forall t | t in specs ensures AllOk(b, g.tasks[t].deps) {
      AllOkExtends(a, b, g.tasks[t].deps);
    }
  }

  lemma LaunchKeepsSpecs(g: Graph, s: State)
    requires Inv(g, s) && Partition(g, Launch(g, s)) && Extends(s.results, Launch(g, s).results)
    ensures SpecsRight(g, Launch(g, s))
  {
    LaunchAddsNoRan(g, s);
    StartBuildsSpecs(g, s);
    SpecsRightAfter(g, s.results, Launch(g, s).results, Launch(g, s).specs);
  }

  lemma LaunchKeepsInv(g: Graph, s: State)
    requires Inv(g, s)
    ensures Inv(g, Launch(g, s)) && Extends(s.results, Launch(g, s).results)
  {
    LaunchExplains(g, s);
    LaunchKeepsPartition(g, s);
    LaunchKeepsSpecs(g, s);
  }

  lemma CompleteExplains(g: Graph, s: State, done: set<Id>)
    requires Inv(g, s) && done <= s.running
    ensures AllExplained(g, Complete(g, s, done).results) && Extends(s.results, Complete(g, s, done).results)
  {
    var c := Complete(g, s, done);
    forall t | t in c.results ensures t in g.tasks && Explained(g, c.results, t) {
      if t in s.results {
        ExplainedStable(g, s.results, c.results, t);
      } else {
        assert t in s.specs;
        AllOkExtends(s.results, c.results, g.tasks[t].deps);
      }
    }
  }

  lemma CompleteMoves(results: set<Id>, pending: set<Id>, running: set<Id>, done: set<Id>, all: set<Id>)
    requires Splits(results, pending, running, all) && done <= running
    ensures Splits(results + done, pending, running - done, all)
  {
  }

  lemma CompleteAddsRan(g: Graph, s: State, done: set<Id>)
    requires Partition(g, s) && done <= s.running
    ensures RanIds(Complete(g, s, done).results) == RanIds(s.results) + done
  {
    RanIdsAfter(s.results, Collected(g, done));
    assert RanIds(Collected(g, done)) == done;
  }

  lemma CompleteKeepsInv(g: Graph, s: State, done: set<Id>)
    requires Inv(g, s) && done <= s.running
    ensures Inv(g, Complete(g, s, done)) && Extends(s.results, Complete(g, s, done).results)
  {
    CompleteExplains(g, s, done);
    CompleteMoves(s.results.Keys, s.pending, s.running, done, g.tasks.Keys);
    assert Complete(g, s, done).results.Keys == s.results.Keys + done;
    CompleteAddsRan(g, s, done);
    SpecsRightAfter(g, s.results, Complete(g, s, done).results, s.specs);
  }

  /** The loop's measure: a launched task moves from two to one, a finished one to nothing. */
  function Measure(s: State): nat {
    2 * |s.pending| + |s.running|
  }

  lemma TurnDecreasesMeasure(g: Graph, s: State, done: set<Id>)
    requires Inv(g, s) && done != {} && done <= Launch(g, s).running
    ensures Measure(Complete(g, Launch(g, s), done)) < Measure(s)
  {
    assert Start(g, s) <= Ready(g, s);
    MovedSetsShrink(s.pending, s.running, Ready(g, s), Start(g, s), done);
  }

  lemma MovedSetsShrink(pending: set<Id>, running: set<Id>, ready: set<Id>, start: set<Id>, done: set<Id>)
    requires start <= ready <= pending && pending !! running && done != {} && done <= running + start
    ensures 2 * |pending - ready| + |running + start - done| < 2 * |pending| + |running|
  {
    SubsetSize(start, ready);
    assert |pending| == |pending - ready| + |ready|;
    assert |running + start| == |running| + |start|;
    assert running + start == (running + start - done) + done;
  }

  lemma SubsetSize<T>(a: set<T>, b: set<T>)
    requires a <= b
    ensures |a| <= |b|
  {
    assert b == a + (b - a);
  }

  // ---------- Complete runs ----------

  function GiveUpState(s: State): State {
    State(GiveUp(s), {}, {}, s.specs)
  }

  /** `picks` lists, turn by turn, the jobs found finished; the run ends in `final`. */
  ghost predicate Run(g: Graph, s: State, picks: seq<set<Id>>, final: State)
    requires Inv(g, s)
    decreases |picks|
  {
    if s.pending == {} && s.running == {} then picks == [] && final == s
    else
      LaunchKeepsInv(g, s);
      var l := Launch(g, s);
      if l.running == {} then picks == [] && final == GiveUpState(l)
      else
        && picks != [] && picks[0] != {} && picks[0] <= l.running
        && (CompleteKeepsInv(g, l, picks[0]);
            Run(g, Complete(g, l, picks[0]), picks[1..], final))
  }

  lemma InitialInv(g: Graph)
    ensures Inv(g, Initial(g))
  {
  }

  /** A run of all of `g` from the start. */
  ghost predicate CompleteRun(g: Graph, picks: seq<set<Id>>, final: State) {
    InitialInv(g);
    Run(g, Initial(g), picks, final)
  }

  /** The result of a finished run, task by task. */
  ghost predicate Settled(g: Graph, final: map<Id, TaskResult>) {
    && final.Keys == g.tasks.Keys
    && (forall t :: t in final && !final[t].Unrunnable? ==> Explained(g, final, t))
    && (forall t :: t in final && final[t].Unrunnable? ==> HasUnranDep(g, final, t))
  }

  ghost predicate HasUnranDep(g: Graph, final: map<Id, TaskResult>, t: Id)
    requires t in g.tasks
  {
    exists d :: d in g.tasks[t].deps && (d !in final || !Ran(final[d]))
  }

  lemma GiveUpLeavesNotRan(g: Graph, s: State, d: Id)
    requires Inv(g, s) && Launch(g, s).running == {} && d !in s.results
    ensures d in GiveUp(Launch(g, s)) ==> !Ran(GiveUp(Launch(g, s))[d])
  {
  }

  lemma LeftOverHasUnranDep(g: Graph, s: State, t: Id)
    requires Inv(g, s) && t in Launch(g, s).pending
    requires Launch(g, s).running == {}
    ensures HasUnranDep(g, GiveUp(Launch(g, s)), t)
  {
    assert t !in Ready(g, s);
    var d :| d in g.tasks[t].deps && d !in s.results;
    GiveUpLeavesNotRan(g, s, d);
  }

  lemma GiveUpExplains(g: Graph, l: State, t: Id)
    requires Partition(g, l) && AllExplained(g, l.results)
    requires t in GiveUp(l) && !GiveUp(l)[t].Unrunnable?
    ensures Explained(g, GiveUp(l), t)
  {
    ExplainedStable(g, l.results, GiveUp(l), t);
  }

  lemma UnrunnableIsPending(g: Graph, l: State, t: Id)
    requires AllExplained(g, l.results) && t in GiveUp(l) && GiveUp(l)[t].Unrunnable?
    ensures t in l.pending
  {
    assert t in l.results ==> Explained(g, l.results, t);
  }

  lemma GiveUpSettles(g: Graph, s: State)
    requires Inv(g, s) && Launch(g, s).running == {}
    ensures Settled(g, GiveUp(Launch(g, s))) && Extends(s.results, GiveUp(Launch(g, s)))
  {
    LaunchKeepsInv(g, s);
    var l := Launch(g, s);
    var final := GiveUp(l);
    forall t | t in final && !final[t].Unrunnable? ensures Explained(g, final, t) {
      GiveUpExplains(g, l, t);
    }
    forall t | t in final && final[t].Unrunnable? ensures HasUnranDep(g, final, t) {
      UnrunnableIsPending(g, l, t);
      LeftOverHasUnranDep(g, s, t);
    }
  }

  lemma ExtendsTransitive(a: map<Id, TaskResult>, b: map<Id, TaskResult>, c: map<Id, TaskResult>)
    requires Extends(a, b) && Extends(b, c)
    ensures Extends(a, c)
  {
  }

  lemma EmptyStateSettles(g: Graph, s: State)
    requires Inv(g, s) && s.pending == {} && s.running == {}
    ensures Settled(g, s.results)
  {
  }

  /** No result is ever overwritten, and the run ends with every task accounted for. */
  lemma {:induction false} RunSettles(g: Graph, s: State, picks: seq<set<Id>>, final: State)
    requires Inv(g, s) && Run(g, s, picks, final)
    ensures Settled(g, final.results) && Extends(s.results, final.results)
    decreases |picks|
  {
    if s.pending == {} && s.running == {} {
      EmptyStateSettles(g, s);
    } else {
      LaunchKeepsInv(g, s);
      var l := Launch(g, s);
      if l.running == {} {
        GiveUpSettles(g, s);
      } else {
        var c := Complete(g, l, picks[0]);
        CompleteKeepsInv(g, l, picks[0]);
        RunSettles(g, c, picks[1..], final);
        ExtendsTransitive(s.results, l.results, c.results);
        ExtendsTransitive(s.results, c.results, final.results);
      }
    }
  }

  // ---------- Which tasks run is a least fixpoint ----------

  function OkIds(results: map<Id, TaskResult>): set<Id> {
    set t | t in results && results[t].Ok?
  }

  /** The tasks whose dependencies all lie in `x` and that succeed when run. */
  function EndsOkGiven(g: Graph, x: set<Id>): set<Id> {
    set t | t in g.tasks && Succeeds(g, t) && forall d :: d in g.tasks[t].deps ==> d in x
  }

  ghost predicate IsLeastFixpoint(g: Graph, x: set<Id>) {
    EndsOkGiven(g, x) == x && forall y :: EndsOkGiven(g, y) <= y ==> x <= y
  }

  /** The tasks that are started when exactly `x` ends ok. */
  function Started(g: Graph, x: set<Id>): set<Id> {
    set t | t in g.tasks && forall d :: d in g.tasks[t].deps ==> d in x
  }

  lemma AddingNoOk(a: map<Id, TaskResult>, more: map<Id, TaskResult>)
    requires a.Keys !! more.Keys && forall t :: t in more ==> !more[t].Ok?
    ensures OkIds(a + more) == OkIds(a)
  {
  }

  lemma LaunchAddsNoOk(g: Graph, s: State)
    requires WellKeyed(g, s)
    ensures OkIds(Launch(g, s).results) == OkIds(s.results)
  {
    AddingNoOk(s.results, SkipAll(g, s.results, Ready(g, s) - Start(g, s)));
  }

  lemma GiveUpAddsNoOk(l: State)
    requires l.pending !! l.results.Keys
    ensures OkIds(GiveUp(l)) == OkIds(l.results)
  {
    AddingNoOk(l.results, map t | t in l.pending :: Unrunnable);
  }

  lemma CompleteStaysWithin(g: Graph, l: State, done: set<Id>, y: set<Id>)
    requires Inv(g, l) && done <= l.running
    requires EndsOkGiven(g, y) <= y && OkIds(l.results) <= y
    ensures OkIds(Complete(g, l, done).results) <= y
  {
    forall t | t in done && ResultOf(g.outcome(t)).Ok? ensures t in y {
      assert forall d :: d in g.tasks[t].deps ==> d in OkIds(l.results);
      assert t in EndsOkGiven(g, y);
    }
  }

  lemma {:induction false} RunStaysWithin(g: Graph, s: State, picks: seq<set<Id>>, final: State, y: set<Id>)
    requires Inv(g, s) && Run(g, s, picks, final)
    requires EndsOkGiven(g, y) <= y && OkIds(s.results) <= y
    ensures OkIds(final.results) <= y
    decreases |picks|
  {
    if s.pending != {} || s.running != {} {
      LaunchKeepsInv(g, s);
      LaunchAddsNoOk(g, s);
      var l := Launch(g, s);
      GiveUpAddsNoOk(l);
      if l.running != {} {
        CompleteKeepsInv(g, l, picks[0]);
        CompleteStaysWithin(g, l, picks[0], y);
        RunStaysWithin(g, Complete(g, l, picks[0]), picks[1..], final, y);
      }
    }
  }

  lemma SettledRanIffStarted(g: Graph, final: map<Id, TaskResult>, t: Id)
    requires Settled(g, final) && t in g.tasks
    ensures Ran(final[t]) <==> t in Started(g, OkIds(final))
  {
    assert final[t].Unrunnable? || Explained(g, final, t);
    if t in Started(g, OkIds(final)) {
      assert AllOk(final, g.tasks[t].deps);
    }
  }

  lemma SettledOkIsFixpoint(g: Graph, final: map<Id, TaskResult>)
    requires Settled(g, final)
    ensures EndsOkGiven(g, OkIds(final)) == OkIds(final)
  {
    var x := OkIds(final);
    forall t | t in g.tasks ensures t in EndsOkGiven(g, x) <==> t in x {
      SettledRanIffStarted(g, final, t);
      assert final[t].Unrunnable? || Explained(g, final, t);
    }
  }

  /** What a finished run says of one task, given the set `x` that ended ok. */
  ghost predicate Verdict(g: Graph, final: map<Id, TaskResult>, x: set<Id>, t: Id)
    requires t in final && t in g.tasks
  {
    && (final[t].Ok? <==> t in x)
    && (Ran(final[t]) <==> t in Started(g, x))
    && (Ran(final[t]) ==> final[t] == ResultOf(g.outcome(t)))
    && (final[t].Skipped? ==>
          AllResolved(final, g.tasks[t].deps) && final[t].blockers == Blockers(final, g.tasks[t].deps) != [])
  }

  lemma SettledVerdict(g: Graph, final: map<Id, TaskResult>, t: Id)
    requires Settled(g, final) && t in g.tasks
    ensures Verdict(g, final, OkIds(final), t)
  {
    SettledRanIffStarted(g, final, t);
    assert final[t].Unrunnable? || Explained(g, final, t);
  }

  /**
    Whatever the order of completions: one result per task; the tasks that end ok are the least set
    closed under "all dependencies ended ok and the job succeeds"; the ones that failed are the other
    started ones; a skipped task names exactly its dependencies that are not ok.
  */
  lemma RunIsDeterminedByOutcomes(g: Graph, picks: seq<set<Id>>, final: State)
    requires CompleteRun(g, picks, final)
    ensures final.results.Keys == g.tasks.Keys
    ensures IsLeastFixpoint(g, OkIds(final.results))
    ensures forall t :: t in g.tasks ==> Verdict(g, final.results, OkIds(final.results), t)
  {
    RunSettles(g, Initial(g), picks, final);
    SettledOkIsFixpoint(g, final.results);
    forall t | t in g.tasks ensures Verdict(g, final.results, OkIds(final.results), t) {
      SettledVerdict(g, final.results, t);
    }
    forall y | EndsOkGiven(g, y) <= y ensures OkIds(final.results) <= y {
      RunStaysWithin(g, Initial(g), picks, final, y);
    }
  }

  /** Ok is a commit in the Pool; failed is a job that finished without one, or raised. */
  ghost predicate Tells(o: Outcome, r: TaskResult) {
    && (r.Ok? ==> r.poolSha != "" && o == Finished(r.poolSha))
    && (r.Failed? ==> (o == Finished("") && r.message == "produced no commits") || o == Raised(r.message))
  }

  /** In every complete run an ok or failed task's job had the outcome its result tells. */
  lemma ResultsTellOutcomes(g: Graph, picks: seq<set<Id>>, final: State)
    requires CompleteRun(g, picks, final)
    ensures forall t :: t in final.results ==> Tells(g.outcome(t), final.results[t])
  {
    RunIsDeterminedByOutcomes(g, picks, final);
    forall t | t in final.results ensures Tells(g.outcome(t), final.results[t]) {
      assert Verdict(g, final.results, OkIds(final.results), t);
    }
  }

  /** `d` as a blocker: itself, if it did not end ok. */
  function NotOk(results: map<Id, TaskResult>): Id -> W.Option<Id> {
    d => if d in results && results[d].Ok? then W.None else W.Some(d)
  }

  lemma {:induction false} BlockersInOrder(results: map<Id, TaskResult>, deps: seq<Id>)
    requires AllResolved(results, deps)
    ensures Blockers(results, deps) == Select(NotOk(results), deps)
    decreases |deps|
  {
    if deps != [] {
      BlockersInOrder(results, deps[1..]);
    }
  }

  /** In every complete run a skipped task names its dependencies that are not ok, in the order it declares them. */
  lemma SkippedNamesBlockers(g: Graph, picks: seq<set<Id>>, final: State, t: Id)
    requires CompleteRun(g, picks, final) && t in final.results && final.results[t].Skipped?
    ensures t in g.tasks && final.results[t].blockers == Select(NotOk(final.results), g.tasks[t].deps) != []
  {
    RunIsDeterminedByOutcomes(g, picks, final);
    assert Verdict(g, final.results, OkIds(final.results), t);
    BlockersInOrder(final.results, g.tasks[t].deps);
  }

  lemma LeastFixpointIsUnique(g: Graph, x: set<Id>, y: set<Id>)
    requires IsLeastFixpoint(g, x) && IsLeastFixpoint(g, y)
    ensures x == y
  {
    assert x <= y && y <= x;
  }

  /** Two runs of the same tasks agree on what ran and how it ended. */
  lemma RunsAgree(g: Graph, picks1: seq<set<Id>>, final1: State, picks2: seq<set<Id>>, final2: State)
    requires CompleteRun(g, picks1, final1) && CompleteRun(g, picks2, final2)
    ensures final1.results.Keys == final2.results.Keys
    ensures forall t :: t in final1.results ==>
                          && (Ran(final1.results[t]) <==> Ran(final2.results[t]))
                          && (Ran(final1.results[t]) ==> final1.results[t] == final2.results[t])
  {
    var r1, r2 := final1.results, final2.results;
    RunIsDeterminedByOutcomes(g, picks1, final1);
    RunIsDeterminedByOutcomes(g, picks2, final2);
    LeastFixpointIsUnique(g, OkIds(r1), OkIds(r2));
    forall t | t in r1
      ensures (Ran(r1[t]) <==> Ran(r2[t])) && (Ran(r1[t]) ==> r1[t] == r2[t])
    {
      assert Verdict(g, r1, OkIds(r1), t) && Verdict(g, r2, OkIds(r2), t);
    }
  }

  // ---------- Specs ----------

  ghost predicate SpecOf(g: Graph, specs: map<Id, Spec>, t: Id)
    requires t in specs
  {
    t in g.tasks && (forall d :: d in g.tasks[t].deps ==> d in g.tasks) && specs[t] == SpecFor(g, t)
  }

  ghost predicate SpecsBuilt(g: Graph, specs: map<Id, Spec>, ran: set<Id>) {
    specs.Keys == ran && forall t :: t in specs ==> SpecOf(g, specs, t)
  }

  lemma InvSpecs(g: Graph, s: State)
    requires Inv(g, s) && s.running == {}
    ensures SpecsBuilt(g, s.specs, RanIds(s.results))
  {
    forall t | t in s.specs ensures SpecOf(g, s.specs, t) {
      assert AllOk(s.results, g.tasks[t].deps);
    }
  }

  lemma GiveUpAddsNoRan(g: Graph, l: State)
    requires Partition(g, l)
    ensures RanIds(GiveUp(l)) == RanIds(l.results)
  {
    assert forall t :: t in l.results ==> t !in l.pending;
  }

  /** A spec is built for exactly the tasks that ran. */
  lemma {:induction false} RunKeepsSpecs(g: Graph, s: State, picks: seq<set<Id>>, final: State)
    requires Inv(g, s) && Run(g, s, picks, final)
    ensures SpecsBuilt(g, final.specs, RanIds(final.results))
    decreases |picks|
  {
    if s.pending == {} && s.running == {} {
      InvSpecs(g, s);
    } else {
      LaunchKeepsInv(g, s);
      var l := Launch(g, s);
      if l.running == {} {
        InvSpecs(g, l);
        GiveUpAddsNoRan(g, l);
      } else {
        CompleteKeepsInv(g, l, picks[0]);
        RunKeepsSpecs(g, Complete(g, l, picks[0]), picks[1..], final);
      }
    }
  }

  /** The branch a task's dependants start from: the one it asks for, or else its run's audit ref. */
  ghost predicate IsBranchOf(t: Task, branch: string) {
    match t.outputBranch
    case Some(b) => branch == if b == "" then "runs/" + t.id.name else b
    case None => branch == "runs/" + t.id.name
  }

  /**
    `spec` hands task `t` its dependencies' branches in their order, the first as the base; a root task gets the run's
    base.
  */
  ghost predicate CarriesDependencies(g: Graph, t: Id, spec: Spec) {
    && t in g.tasks && IsBranchOf(g.tasks[t], spec.output)
    && var deps := g.tasks[t].deps;
       if deps == [] then spec.base == g.baseRef && spec.imports == []
       else
         && |spec.imports| == |deps| - 1
         && forall i :: 0 <= i < |deps|
               ==> deps[i] in g.tasks && IsBranchOf(g.tasks[deps[i]], ([spec.base] + spec.imports)[i])
  }

  lemma SpecForCarries(g: Graph, t: Id)
    requires t in g.tasks && forall d :: d in g.tasks[t].deps ==> d in g.tasks
    ensures CarriesDependencies(g, t, SpecFor(g, t))
  {
    var spec, deps := SpecFor(g, t), g.tasks[t].deps;
    if deps != [] {
      assert [spec.base] + spec.imports == Branches(g.tasks, deps);
    }
  }

  /** After a complete run: a spec for each task that ran and no other, and it carries the task's dependencies. */
  lemma SpecsCarryDependencies(g: Graph, picks: seq<set<Id>>, final: State)
    requires CompleteRun(g, picks, final)
    ensures final.specs.Keys == RanIds(final.results)
    ensures forall t :: t in final.specs ==> CarriesDependencies(g, t, final.specs[t])
  {
    RunKeepsSpecs(g, Initial(g), picks, final);
    forall t | t in final.specs
      ensures CarriesDependencies(g, t, final.specs[t])
    {
      assert SpecOf(g, final.specs, t);
      SpecForCarries(g, t);
    }
  }

  // ---------- Cycles and unknown dependencies ----------

  /** Every member waits for another member or for an id that is not a task. */
  ghost predicate StuckSet(g: Graph, x: set<Id>) {
    x <= g.tasks.Keys && forall t :: t in x ==> WaitsOn(g, x, t)
  }

  ghost predicate WaitsOn(g: Graph, x: set<Id>, t: Id)
    requires t in g.tasks
  {
    exists d :: d in g.tasks[t].deps && (d in x || d !in g.tasks)
  }

  ghost predicate Stuck(g: Graph, t: Id) {
    exists x :: StuckSet(g, x) && t in x
  }

  lemma StuckIsNotReady(g: Graph, s: State, x: set<Id>)
    requires Inv(g, s) && StuckSet(g, x) && x <= s.pending
    ensures x <= Launch(g, s).pending
  {
    forall t | t in x ensures t !in Ready(g, s) {
      assert WaitsOn(g, x, t);
      var d :| d in g.tasks[t].deps && (d in x || d !in g.tasks);
      assert d !in s.results;
    }
  }

  lemma {:induction false} StuckEndsUnrunnable(g: Graph, s: State, picks: seq<set<Id>>, final: State, x: set<Id>)
    requires Inv(g, s) && Run(g, s, picks, final)
    requires StuckSet(g, x) && x <= s.pending
    ensures forall t :: t in x ==> t in final.results && final.results[t].Unrunnable?
    decreases |picks|
  {
    if s.pending != {} || s.running != {} {
      LaunchKeepsInv(g, s);
      StuckIsNotReady(g, s, x);
      var l := Launch(g, s);
      if l.running != {} {
        CompleteKeepsInv(g, l, picks[0]);
        StuckEndsUnrunnable(g, Complete(g, l, picks[0]), picks[1..], final, x);
      }
    }
  }

  /** A walk along dependencies that ends at an id that is not a task, or comes back to where it has been. */
  ghost predicate DeadWalk(g: Graph, p: seq<Id>) {
    && |p| >= 2 && Walk(g, p)
    && (p[|p| - 1] !in g.tasks || p[|p| - 1] in p[..|p| - 1])
  }

  ghost predicate Walk(g: Graph, p: seq<Id>) {
    forall i :: 0 <= i < |p| - 1 ==> p[i] in g.tasks && p[i + 1] in g.tasks[p[i]].deps
  }

  lemma DeadWalkIsStuck(g: Graph, p: seq<Id>)
    requires DeadWalk(g, p)
    ensures Stuck(g, p[0])
  {
    var x := set i | 0 <= i < |p| - 1 :: p[i];
    forall t | t in x ensures t in g.tasks && WaitsOn(g, x, t) {
      var i :| 0 <= i < |p| - 1 && p[i] == t;
      assert p[i + 1] in g.tasks[t].deps;
      if i + 1 == |p| - 1 {
        if p[i + 1] in g.tasks {
          var j :| 0 <= j < |p| - 1 && p[..|p| - 1][j] == p[|p| - 1];
          assert p[j] in x;
        }
      } else {
        assert p[i + 1] in x;
      }
    }
    assert p[0] in x && StuckSet(g, x);
  }

  lemma WalkExtends(g: Graph, p: seq<Id>, d: Id)
    requires Walk(g, p) && p != [] && p[|p| - 1] in g.tasks && d in g.tasks[p[|p| - 1]].deps
    ensures Walk(g, p + [d])
  {
    var q := p + [d];
    forall i | 0 <= i < |q| - 1 ensures q[i] in g.tasks && q[i + 1] in g.tasks[q[i]].deps {
      if i < |p| - 1 { assert q[i] == p[i] && q[i + 1] == p[i + 1]; }
    }
  }

  /** Extending a walk inside a stuck set without repetition, until it leaves the tasks or repeats. */
  lemma {:induction false} StuckWalks(g: Graph, x: set<Id>, p: seq<Id>, left: set<Id>) returns (q: seq<Id>)
    requires StuckSet(g, x) && p != [] && Walk(g, p)
    requires p[|p| - 1] in x && forall t :: t in x ==> t in left || t in p
    ensures DeadWalk(g, q) && q[0] == p[0]
    decreases left
  {
    var last := p[|p| - 1];
    assert WaitsOn(g, x, last);
    var d :| d in g.tasks[last].deps && (d in x || d !in g.tasks);
    WalkExtends(g, p, d);
    q := p + [d];
    if d in g.tasks && d !in p {
      q := StuckWalks(g, x, q, left - {d});
    } else {
      assert q[..|q| - 1] == p;
    }
  }

  /** A task is stuck exactly when a walk along its dependencies reaches a cycle or an unknown id. */
  lemma StuckMeansDeadWalk(g: Graph, t: Id)
    ensures Stuck(g, t) <==> exists p :: DeadWalk(g, p) && p[0] == t
  {
    if Stuck(g, t) {
      var x :| StuckSet(g, x) && t in x;
      var q := StuckWalks(g, x, [t], x);
    }
    if p :| DeadWalk(g, p) && p[0] == t {
      DeadWalkIsStuck(g, p);
    }
  }

  lemma StuckSetEndsUnrunnable(g: Graph, picks: seq<set<Id>>, final: State, x: set<Id>)
    requires CompleteRun(g, picks, final) && StuckSet(g, x)
    ensures forall t :: t in x ==> t in final.results && final.results[t].Unrunnable?
  {
    StuckEndsUnrunnable(g, Initial(g), picks, final, x);
  }

  /** Whatever the order of completions, a task that reaches a cycle or an unknown id ends unrunnable. */
  lemma CyclicOrUnknownIsUnrunnable(g: Graph, picks: seq<set<Id>>, final: State, p: seq<Id>)
    requires CompleteRun(g, picks, final)
    requires DeadWalk(g, p)
    ensures p[0] in final.results && final.results[p[0]].Unrunnable?
  {
    DeadWalkIsStuck(g, p);
    var x :| StuckSet(g, x) && p[0] in x;
    StuckSetEndsUnrunnable(g, picks, final, x);
  }

  // ---------- The loop itself ----------

  /** Tasks by id; of two tasks with one id the later one counts. */
  function ById(tasks: seq<Task>): map<Id, Task> {
    if tasks == [] then map[]
    else ById(tasks[..|tasks| - 1])[tasks[|tasks| - 1].id := tasks[|tasks| - 1]]
  }

  lemma ByIdGrows(tasks: seq<Task>, i: nat)
    requires i < |tasks|
    ensures ById(tasks[..i + 1]) == ById(tasks[..i])[tasks[i].id := tasks[i]]
  {
    assert tasks[..i + 1][..i] == tasks[..i];
  }

  predicate IsLast(tasks: seq<Task>, i: nat)
    requires i < |tasks|
  {
    forall j :: i < j < |tasks| ==> tasks[j].id != tasks[i].id
  }

  /** One entry per distinct id, holding the last task that has it. */
  ghost predicate IndexesLast(tasks: seq<Task>, byId: map<Id, Task>) {
    && byId.Keys == (set t | t in tasks :: t.id)
    && forall i :: 0 <= i < |tasks| && IsLast(tasks, i) ==> byId[tasks[i].id] == tasks[i]
  }

  lemma {:induction false} ByIdIndexesLast(tasks: seq<Task>)
    ensures IndexesLast(tasks, ById(tasks))
    decreases |tasks|
  {
    if tasks != [] {
      var n := |tasks| - 1;
      var before := tasks[..n];
      ByIdIndexesLast(before);
      assert tasks == before + [tasks[n]];
      forall i | 0 <= i < n && IsLast(tasks, i)
        ensures ById(tasks)[tasks[i].id] == tasks[i]
      {
        assert before[i] == tasks[i] && tasks[n].id != tasks[i].id && IsLast(before, i);
      }
    }
  }

  method Index(tasks: seq<Task>) returns (byId: map<Id, Task>)
    ensures byId == ById(tasks) && IndexesLast(tasks, byId)
  {
    byId := map[];
    for i := 0 to |tasks|
      invariant byId == ById(tasks[..i])
    {
      ByIdGrows(tasks, i);
      byId := byId[tasks[i].id := tasks[i]];
    }
    assert tasks[..|tasks|] == tasks;
    ByIdIndexesLast(tasks);
  }

  /** Handling one task of the ready list: launch it, or skip it for its blockers. */
  function Visit(g: Graph, l: State, tid: Id): State
    requires tid in g.tasks && AllResolved(l.results, g.tasks[tid].deps) && l.results.Keys <= g.tasks.Keys
  {
    var deps := g.tasks[tid].deps;
    if AllOk(l.results, deps) then
      l.(pending := l.pending - {tid}, running := l.running + {tid}, specs := l.specs[tid := SpecFor(g, tid)])
    else
      l.(pending := l.pending - {tid}, results := l.results[tid := Skipped(Blockers(l.results, deps))])
  }

  predicate WellKeyed(g: Graph, s: State) {
    s.pending <= g.tasks.Keys && s.results.Keys <= g.tasks.Keys && s.results.Keys !! s.pending
  }

  /** The round once the tasks in `visited` have been handled. */
  ghost function Visited(g: Graph, s: State, visited: set<Id>): State
    requires WellKeyed(g, s) && visited <= Ready(g, s)
  {
    var start := Start(g, s);
    State(s.results + SkipAll(g, s.results, visited - start), s.pending - visited, s.running + visited * start,
          s.specs + SpecAll(g, visited * start))
  }

  /** A round's own skips do not change how its other ready tasks are judged. */
  lemma JudgedAsAtRoundStart(g: Graph, s: State, visited: set<Id>, t: Id)
    requires WellKeyed(g, s) && visited <= Ready(g, s) && t in Ready(g, s)
    ensures var now := Visited(g, s, visited).results; var deps := g.tasks[t].deps;
            && AllResolved(now, deps) && Blockers(now, deps) == Blockers(s.results, deps)
            && (AllOk(now, deps) <==> t in Start(g, s))
  {
    BlockersStable(s.results, Visited(g, s, visited).results, g.tasks[t].deps);
  }

  lemma SkipOneMore(g: Graph, results: map<Id, TaskResult>, skip: set<Id>, t: Id)
    requires forall u :: u in skip + {t} ==> u in g.tasks && AllResolved(results, g.tasks[u].deps)
    ensures (results + SkipAll(g, results, skip))[t := Skipped(Blockers(results, g.tasks[t].deps))]
            == results + SkipAll(g, results, skip + {t})
  {
  }

  lemma SpecOneMore(g: Graph, specs: map<Id, Spec>, start: set<Id>, t: Id)
    requires forall u :: u in start + {t} ==> u in g.tasks && forall d :: d in g.tasks[u].deps ==> d in g.tasks
    ensures (specs + SpecAll(g, start))[t := SpecFor(g, t)] == specs + SpecAll(g, start + {t})
  {
  }

  lemma StartOneMore(g: Graph, s: State, visited: set<Id>, t: Id)
    requires WellKeyed(g, s) && visited <= Ready(g, s) && t in Start(g, s) && t in Ready(g, s)
    ensures var a, b := Visited(g, s, visited), Visited(g, s, visited + {t});
            && b.results == a.results && b.pending == a.pending - {t}
            && b.running == a.running + {t} && b.specs == a.specs[t := SpecFor(g, t)]
  {
    var start := Start(g, s);
    assert (visited + {t}) * start == visited * start + {t};
    assert (visited + {t}) - start == visited - start;
    SpecOneMore(g, s.specs, visited * start, t);
  }

  lemma PassOverOneMore(g: Graph, s: State, visited: set<Id>, t: Id)
    requires WellKeyed(g, s) && visited <= Ready(g, s) && t in Ready(g, s) && t !in Start(g, s)
    ensures var a, b := Visited(g, s, visited), Visited(g, s, visited + {t});
            && b.results == a.results[t := Skipped(Blockers(s.results, g.tasks[t].deps))]
            && b.pending == a.pending - {t} && b.running == a.running && b.specs == a.specs
  {
    var start, skipped, more := Start(g, s), visited - Start(g, s), visited + {t};
    assert more * start == visited * start && more - start == skipped + {t};
    assert s.pending - more == s.pending - visited - {t};
    SkipOneMore(g, s.results, skipped, t);
  }

  lemma VisitOneMore(g: Graph, s: State, visited: set<Id>, t: Id)
    requires WellKeyed(g, s) && visited <= Ready(g, s) && t in Ready(g, s)
    ensures AllResolved(Visited(g, s, visited).results, g.tasks[t].deps)
    ensures Visit(g, Visited(g, s, visited), t) == Visited(g, s, visited + {t})
  {
    JudgedAsAtRoundStart(g, s, visited, t);
    if t in Start(g, s) {
      StartOneMore(g, s, visited, t);
    } else {
      PassOverOneMore(g, s, visited, t);
    }
  }

  lemma VisitedNone(g: Graph, s: State)
    requires WellKeyed(g, s)
    ensures Visited(g, s, {}) == s
  {
    var start := Start(g, s);
    assert {} * start == {} && {} - start == {};
    assert s.results + SkipAll(g, s.results, {}) == s.results;
    assert s.specs + SpecAll(g, {}) == s.specs;
  }

  lemma VisitedAll(g: Graph, s: State)
    requires WellKeyed(g, s)
    ensures Visited(g, s, Ready(g, s)) == Launch(g, s)
  {
    assert Ready(g, s) * Start(g, s) == Start(g, s);
  }

  /** The launch loop. The ready list is fixed before it starts; the order it is walked in does not matter. */
  method LaunchAll(g: Graph, s: State) returns (l: State)
    requires WellKeyed(g, s)
    ensures l == Launch(g, s)
  {
    VisitedNone(g, s);
    VisitedAll(g, s);
    l := s;
    var todo := Ready(g, s);
    ghost var visited: set<Id> := {};
    while todo != {}
      invariant visited + todo == Ready(g, s)
      invariant l == Visited(g, s, visited)
      decreases todo
    {
      var tid :| tid in todo;
      VisitOneMore(g, s, visited, tid);
      l := Visit(g, l, tid);
      todo, visited := todo - {tid}, visited + {tid};
    }
  }

  lemma CollectOneMore(g: Graph, results: map<Id, TaskResult>, seen: set<Id>, t: Id)
    ensures (results + Collected(g, seen))[t := ResultOf(g.outcome(t))] == results + Collected(g, seen + {t})
  {
  }

  /** The loop over the jobs found finished. */
  method CollectAll(g: Graph, l: State, done: set<Id>) returns (c: State)
    ensures c == Complete(g, l, done)
    ensures forall t :: t in done ==> t in c.results && Tells(g.outcome(t), c.results[t]) && Ran(c.results[t])
  {
    var results, running := l.results, l.running;
    var todo := done;
    ghost var seen: set<Id> := {};
    assert results + Collected(g, {}) == results;
    while todo != {}
      invariant seen + todo == done
      invariant running == l.running - seen
      invariant results == l.results + Collected(g, seen)
      decreases todo
    {
      var tid :| tid in todo;
      CollectOneMore(g, l.results, seen, tid);
      running := running - {tid};
      results := results[tid := ResultOf(g.outcome(tid))];
      todo, seen := todo - {tid}, seen + {tid};
    }
    c := l.(results := results, running := running);
  }

  /** Having come from the start by `picks`, any way to finish from `s` finishes the whole run. */
  ghost predicate Leads(g: Graph, picks: seq<set<Id>>, s: State)
    requires Inv(g, s)
  {
    forall rest, final :: Run(g, s, rest, final) ==> CompleteRun(g, picks + rest, final)
  }

  lemma RunPrepend(g: Graph, s: State, done: set<Id>, picks: seq<set<Id>>, final: State)
    requires Inv(g, s) && (s.pending != {} || s.running != {}) && done != {} && done <= Launch(g, s).running
    requires Inv(g, Complete(g, Launch(g, s), done))
    requires Run(g, Complete(g, Launch(g, s), done), picks, final)
    ensures Run(g, s, [done] + picks, final)
  {
    assert ([done] + picks)[1..] == picks;
  }

  lemma TurnKeepsInv(g: Graph, s: State, done: set<Id>)
    requires Inv(g, s) && done <= Launch(g, s).running
    ensures Inv(g, Complete(g, Launch(g, s), done))
  {
    LaunchKeepsInv(g, s);
    CompleteKeepsInv(g, Launch(g, s), done);
  }

  lemma LeadsOnTo(g: Graph, picks: seq<set<Id>>, s: State, done: set<Id>, rest: seq<set<Id>>, final: State)
    requires Inv(g, s) && Leads(g, picks, s) && Run(g, s, [done] + rest, final)
    ensures CompleteRun(g, picks + [done] + rest, final)
  {
    var whole := [done] + rest;
    UseLeads(g, picks, s, whole, final);
    assert picks + whole == picks + [done] + rest by { AppendAssoc(picks, [done], rest); }
  }

  lemma UseLeads(g: Graph, picks: seq<set<Id>>, s: State, rest: seq<set<Id>>, final: State)
    requires Inv(g, s) && Leads(g, picks, s) && Run(g, s, rest, final)
    ensures CompleteRun(g, picks + rest, final)
  {
  }

  lemma LeadsOn(g: Graph, picks: seq<set<Id>>, s: State, done: set<Id>)
    requires Inv(g, s) && Leads(g, picks, s)
    requires s.pending != {} || s.running != {}
    requires done != {} && done <= Launch(g, s).running
    requires Inv(g, Complete(g, Launch(g, s), done))
    ensures Leads(g, picks + [done], Complete(g, Launch(g, s), done))
  {
    var c := Complete(g, Launch(g, s), done);
    forall rest, final | Run(g, c, rest, final)
      ensures CompleteRun(g, picks + [done] + rest, final)
    {
      RunPrepend(g, s, done, rest, final);
      LeadsOnTo(g, picks, s, done, rest, final);
    }
  }

  lemma LeadsToEnd(g: Graph, picks: seq<set<Id>>, s: State, final: State)
    requires Inv(g, s) && Leads(g, picks, s) && Run(g, s, [], final)
    ensures CompleteRun(g, picks, final)
  {
    assert picks + [] == picks;
  }

  lemma TellsAll(g: Graph, picks: seq<set<Id>>, final: State)
    requires CompleteRun(g, picks, final)
    ensures forall t :: t in final.results ==> Tells(g.outcome(t), final.results[t])
    ensures forall t :: t in final.results && final.results[t].Skipped? ==>
              t in g.tasks && final.results[t].blockers == Select(NotOk(final.results), g.tasks[t].deps) != []
  {
    ResultsTellOutcomes(g, picks, final);
    forall t | t in final.results && final.results[t].Skipped?
      ensures t in g.tasks && final.results[t].blockers == Select(NotOk(final.results), g.tasks[t].deps) != []
    {
      SkippedNamesBlockers(g, picks, final, t);
    }
  }

  /**
    The scheduler's loop: it ends for every task list, and what it does is a complete run. So it has one result per
    distinct id, those that are ok are the least fixpoint, and each task that ran was handed its dependencies' branches.
  */
  method RunDag(tasks: seq<Task>, baseRef: string, outcome: Id -> Outcome)
    returns (results: map<Id, TaskResult>, specs: map<Id, Spec>)
    ensures exists picks :: CompleteRun(Graph(ById(tasks), baseRef, outcome), picks, State(results, {}, {}, specs))
    ensures results.Keys == set t | t in tasks :: t.id
    ensures specs.Keys == RanIds(results)
    ensures forall t :: t in specs ==> CarriesDependencies(Graph(ById(tasks), baseRef, outcome), t, specs[t])
    ensures forall t :: t in results && results[t].Ok? ==>
              results[t].poolSha != "" && outcome(t) == Finished(results[t].poolSha)
    ensures forall t :: t in results && results[t].Failed? ==>
              (outcome(t) == Finished("") && results[t].message == "produced no commits")
              || outcome(t) == Raised(results[t].message)
    ensures forall t :: t in results && results[t].Skipped? ==>
              t in ById(tasks) && results[t].blockers == Select(NotOk(results), ById(tasks)[t].deps) != []
    ensures IsLeastFixpoint(Graph(ById(tasks), baseRef, outcome), OkIds(results))
  {
    var byId := Index(tasks);
    var g := Graph(byId, baseRef, outcome);
    var s := Initial(g);
    InitialInv(g);
    ghost var picks: seq<set<Id>> := [];
    assert Leads(g, picks, s) by {
      forall rest, final | Run(g, s, rest, final) ensures CompleteRun(g, picks + rest, final) {
        assert picks + rest == rest;
      }
    }
    while s.pending != {} || s.running != {}
      invariant Inv(g, s) && Leads(g, picks, s)
      decreases Measure(s)
    {
      var l := LaunchAll(g, s);
      if l.running == {} {
        LeadsToEnd(g, picks, s, GiveUpState(l));
        RunIsDeterminedByOutcomes(g, picks, GiveUpState(l));
        SpecsCarryDependencies(g, picks, GiveUpState(l));
        TellsAll(g, picks, GiveUpState(l));
        return GiveUpState(l).results, GiveUpState(l).specs;
      }
      var done: set<Id> :| done != {} && done <= l.running;
      TurnKeepsInv(g, s, done);
      LeadsOn(g, picks, s, done);
      TurnDecreasesMeasure(g, s, done);
      s := CollectAll(g, l, done);
      picks := picks + [done];
    }
    LeadsToEnd(g, picks, s, s);
    RunIsDeterminedByOutcomes(g, picks, s);
    SpecsCarryDependencies(g, picks, s);
    TellsAll(g, picks, s);
    return s.results, s.specs;
  }
}

/**
  The label `unrunnable`. A task that reaches a cycle or an unknown id always gets it,
  but it is not the only one that can: the ready list of a round is computed before the
  round's own skips land, so a task behind a skipped one may be given up with the rest.
  Here is exactly when the label means what it says.
*/
module SchedulerLabels {
  import opened Scheduler

  /** In every run, the unrunnable tasks are the stuck ones. */
  ghost predicate LabelsExact(g: Graph) {
    forall picks, final :: CompleteRun(g, picks, final) ==> LabelsExactIn(g, final.results)
  }

  ghost predicate LabelsExactIn(g: Graph, results: map<Id, TaskResult>) {
    forall t :: t in results ==> (results[t].Unrunnable? <==> Stuck(g, t))
  }

  /** A task that is not stuck has a dependency that is never started, given that `x` ends ok. */
  ghost predicate BlockedChain(g: Graph, x: set<Id>) {
    exists t, d :: BehindBlocked(g, x, t, d)
  }

  ghost predicate BehindBlocked(g: Graph, x: set<Id>, t: Id, d: Id) {
    t in g.tasks && !Stuck(g, t) && d in g.tasks[t].deps && d !in Started(g, x)
  }

  // ---------- Without such a chain the label is exact ----------

  lemma DependencyIsNotStuck(g: Graph, t: Id, d: Id)
    requires t in g.tasks && !Stuck(g, t) && d in g.tasks[t].deps
    ensures d in g.tasks && !Stuck(g, d)
  {
    if d !in g.tasks {
      assert WaitsOn(g, {t}, t);
      assert StuckSet(g, {t});
    } else if y :| StuckSet(g, y) && d in y {
      var z := y + {t};
      forall u | u in z ensures WaitsOn(g, z, u) {
        if u != t { assert WaitsOn(g, y, u); }
      }
      assert StuckSet(g, z);
    }
  }

  lemma RunOkIds(g: Graph, picks: seq<set<Id>>, final: State, x: set<Id>)
    requires CompleteRun(g, picks, final) && IsLeastFixpoint(g, x)
    ensures OkIds(final.results) == x && Settled(g, final.results)
  {
    RunSettles(g, Initial(g), picks, final);
    RunIsDeterminedByOutcomes(g, picks, final);
    LeastFixpointIsUnique(g, OkIds(final.results), x);
  }

  lemma UnrunnableIsBehindBlocked(g: Graph, picks: seq<set<Id>>, final: State, x: set<Id>, t: Id)
    requires CompleteRun(g, picks, final) && IsLeastFixpoint(g, x)
    requires t in final.results && final.results[t].Unrunnable? && !Stuck(g, t)
    ensures BlockedChain(g, x)
  {
    RunOkIds(g, picks, final, x);
    SettledUnrunnable(g, final.results, t);
  }

  lemma SettledUnrunnable(g: Graph, results: map<Id, TaskResult>, t: Id)
    requires Settled(g, results) && t in results && results[t].Unrunnable? && !Stuck(g, t)
    ensures BlockedChain(g, OkIds(results))
  {
    assert HasUnranDep(g, results, t);
    var d :| d in g.tasks[t].deps && (d !in results || !Ran(results[d]));
    DependencyIsNotStuck(g, t, d);
    SettledRanIffStarted(g, results, d);
    assert BehindBlocked(g, OkIds(results), t, d);
  }

  lemma StuckIsUnrunnable(g: Graph, picks: seq<set<Id>>, final: State, t: Id)
    requires CompleteRun(g, picks, final) && Stuck(g, t)
    ensures t in final.results && final.results[t].Unrunnable?
  {
    var y :| StuckSet(g, y) && t in y;
    StuckEndsUnrunnable(g, Initial(g), picks, final, y);
  }

  lemma NoChainIsExact(g: Graph, x: set<Id>)
    requires IsLeastFixpoint(g, x) && !BlockedChain(g, x)
    ensures LabelsExact(g)
  {
    forall picks, final | CompleteRun(g, picks, final) ensures LabelsExactIn(g, final.results) {
      forall t | t in final.results ensures final.results[t].Unrunnable? <==> Stuck(g, t) {
        if Stuck(g, t) {
          StuckIsUnrunnable(g, picks, final, t);
        } else if final.results[t].Unrunnable? {
          UnrunnableIsBehindBlocked(g, picks, final, x, t);
        }
      }
    }
  }

  // ---------- With such a chain some order of completions mislabels ----------

  lemma StartedIsNotStuck(g: Graph, x: set<Id>, y: set<Id>)
    requires IsLeastFixpoint(g, x) && StuckSet(g, y)
    ensures Started(g, x) !! y
  {
    var z := g.tasks.Keys - y;
    forall u | u in EndsOkGiven(g, z) ensures u in z {
      assert u in y ==> WaitsOn(g, y, u);
    }
    assert x <= z;
    forall u | u in y ensures u !in Started(g, x) {
      assert WaitsOn(g, y, u);
    }
  }

  /** The lowest link of a blocked chain: `low` is blocked, everything it waits for is started. */
  lemma LowestBlocked(g: Graph, x: set<Id>) returns (above: Id, low: Id, failing: Id)
    requires IsLeastFixpoint(g, x) && BlockedChain(g, x)
    ensures BehindBlocked(g, x, above, low) && low in g.tasks
    ensures failing in g.tasks[low].deps && failing in Started(g, x) && failing !in x
  {
    var chain := set d | d in g.tasks && exists t :: BehindBlocked(g, x, t, d);
    var t0, d0 :| BehindBlocked(g, x, t0, d0);
    DependencyIsNotStuck(g, t0, d0);
    assert d0 in chain;
    if forall d :: d in chain ==> WaitsOn(g, chain, d) {
      assert StuckSet(g, chain);
      assert false;
    } else {
      low :| low in chain && !WaitsOn(g, chain, low);
      above :| BehindBlocked(g, x, above, low);
      DependencyIsNotStuck(g, above, low);
      failing :| failing in g.tasks[low].deps && failing !in x;
      DependencyIsNotStuck(g, low, failing);
      assert failing !in Started(g, x) ==> BehindBlocked(g, x, low, failing);
    }
  }

  /** The results so far agree with `x` on what ends ok and what is started. */
  ghost predicate Agrees(g: Graph, results: map<Id, TaskResult>, x: set<Id>) {
    forall t :: t in results ==> (results[t].Ok? <==> t in x) && (Ran(results[t]) <==> t in Started(g, x))
  }

  lemma SkippedIsNotStarted(g: Graph, s: State, x: set<Id>, t: Id)
    requires Inv(g, s) && IsLeastFixpoint(g, x) && Agrees(g, s.results, x)
    requires t in Ready(g, s) - Start(g, s)
    ensures t !in Started(g, x) && t !in x
  {
    var d :| d in g.tasks[t].deps && !s.results[d].Ok?;
    assert d !in x;
  }

  lemma AgreesWithMore(g: Graph, results: map<Id, TaskResult>, more: map<Id, TaskResult>, x: set<Id>)
    requires Agrees(g, results, x) && Agrees(g, more, x)
    ensures Agrees(g, results + more, x)
  {
  }

  lemma LaunchAgrees(g: Graph, s: State, x: set<Id>)
    requires Inv(g, s) && IsLeastFixpoint(g, x) && Agrees(g, s.results, x)
    ensures Agrees(g, Launch(g, s).results, x)
  {
    var skips := SkipAll(g, s.results, Ready(g, s) - Start(g, s));
    forall t | t in skips ensures t !in Started(g, x) && t !in x {
      SkippedIsNotStarted(g, s, x, t);
    }
    AgreesWithMore(g, s.results, skips, x);
  }

  lemma CompleteAgrees(g: Graph, l: State, done: set<Id>, x: set<Id>)
    requires Inv(g, l) && done <= l.running && IsLeastFixpoint(g, x) && Agrees(g, l.results, x)
    ensures Agrees(g, Complete(g, l, done).results, x)
  {
    forall t | t in done
      ensures t in Started(g, x) && (ResultOf(g.outcome(t)).Ok? <==> t in x)
    {
      assert t in l.specs;
    }
    assert Agrees(g, Collected(g, done), x);
    AgreesWithMore(g, l.results, Collected(g, done), x);
  }

  /** Once at most one job that will fail is running, no started task is left waiting. */
  lemma NothingElseLeft(g: Graph, s: State, x: set<Id>, a: Id)
    requires Inv(g, s) && IsLeastFixpoint(g, x) && Agrees(g, s.results, x)
    requires a !in x && Launch(g, s).running <= {a}
    ensures Started(g, x) !! Launch(g, s).pending
  {
    LaunchKeepsInv(g, s);
    LaunchAgrees(g, s, x);
    var l := Launch(g, s);
    var left := Started(g, x) * l.pending;
    forall t | t in left ensures WaitsOn(g, left, t) {
      assert t !in Ready(g, s);
      var d :| d in g.tasks[t].deps && d !in s.results;
      assert d in x && d in Started(g, x);
      assert d !in l.results;
    }
    assert StuckSet(g, left);
    StartedIsNotStuck(g, x, left);
  }

  lemma WaitersStayPending(g: Graph, s: State, failing: Id, low: Id, above: Id)
    requires Inv(g, s) && failing !in s.results && low in s.pending && above in s.pending
    requires failing in g.tasks[low].deps && low in g.tasks[above].deps
    ensures low in Launch(g, s).pending && above in Launch(g, s).pending
  {
    assert low !in Ready(g, s) && above !in Ready(g, s);
  }

  /** The last job has failed: its waiter is skipped, and what waits for that one is given up in the same round. */
  lemma LastRound(g: Graph, s: State, x: set<Id>, low: Id, above: Id)
    requires Inv(g, s) && IsLeastFixpoint(g, x) && Agrees(g, s.results, x)
    requires s.running == {} && Started(g, x) !! s.pending
    requires low in s.pending && above in s.pending && low in g.tasks[above].deps
    ensures Run(g, s, [], GiveUpState(Launch(g, s)))
    ensures GiveUpState(Launch(g, s)).results[above].Unrunnable?
  {
    assert Start(g, s) <= Started(g, x) * s.pending;
    assert Start(g, s) == {};
    assert above !in Ready(g, s);
    LaunchKeepsInv(g, s);
  }

  lemma AfterTheLastJob(g: Graph, l: State, x: set<Id>, failing: Id, low: Id, above: Id) returns (final: State)
    requires Inv(g, l) && IsLeastFixpoint(g, x) && Agrees(g, l.results, x)
    requires l.running == {failing} && Started(g, x) !! l.pending
    requires low in l.pending && above in l.pending && low in g.tasks[above].deps
    ensures Inv(g, Complete(g, l, {failing})) && Run(g, Complete(g, l, {failing}), [], final)
    ensures above in final.results && final.results[above].Unrunnable?
  {
    CompleteKeepsInv(g, l, {failing});
    CompleteAgrees(g, l, {failing}, x);
    LastRound(g, Complete(g, l, {failing}), x, low, above);
    final := GiveUpState(Launch(g, Complete(g, l, {failing})));
  }

  /** `failing` is the only job left: it ends, and the task two steps above is given up. */
  lemma FailingIsTheLastJob(g: Graph, s: State, x: set<Id>, failing: Id, low: Id, above: Id) returns (final: State)
    requires Inv(g, s) && IsLeastFixpoint(g, x) && Agrees(g, s.results, x)
    requires failing in Started(g, x) && failing !in x && failing !in s.results
    requires Launch(g, s).running <= {failing}
    requires low in Launch(g, s).pending && above in Launch(g, s).pending && low in g.tasks[above].deps
    ensures Launch(g, s).running == {failing}
    ensures Inv(g, Complete(g, Launch(g, s), {failing}))
    ensures Run(g, Complete(g, Launch(g, s), {failing}), [], final)
    ensures above in final.results && final.results[above].Unrunnable?
  {
    LaunchKeepsInv(g, s);
    LaunchAgrees(g, s, x);
    NothingElseLeft(g, s, x, failing);
    assert failing !in Launch(g, s).results;
    final := AfterTheLastJob(g, Launch(g, s), x, failing, low, above);
  }

  /** `failing` is still to run and fail, `low` waits for it and `above` for `low`. */
  ghost predicate Heading(g: Graph, s: State, x: set<Id>, failing: Id, low: Id, above: Id) {
    && Inv(g, s) && IsLeastFixpoint(g, x) && Agrees(g, s.results, x)
    && failing in Started(g, x) && failing !in x && failing !in s.results
    && low in s.pending && above in s.pending
    && failing in g.tasks[low].deps && low in g.tasks[above].deps
  }

  /** Some run from `s` on gives `above` up. */
  ghost predicate GivesUp(g: Graph, s: State, above: Id)
    requires Inv(g, s)
  {
    exists picks, final :: Run(g, s, picks, final) && above in final.results && final.results[above].Unrunnable?
  }

  lemma GivesUpBy(g: Graph, s: State, above: Id, picks: seq<set<Id>>, final: State)
    requires Inv(g, s) && Run(g, s, picks, final) && above in final.results && final.results[above].Unrunnable?
    ensures GivesUp(g, s, above)
  {
  }

  lemma PrependTurn(g: Graph, s: State, done: set<Id>, next: State, above: Id)
    requires Inv(g, s) && s.pending != {} && done != {} && done <= Launch(g, s).running
    requires next == Complete(g, Launch(g, s), done) && Inv(g, next) && GivesUp(g, next, above)
    ensures GivesUp(g, s, above)
  {
    var picks, final :| Run(g, next, picks, final) && above in final.results && final.results[above].Unrunnable?;
    RunPrepend(g, s, done, picks, final);
    GivesUpBy(g, s, above, [done] + picks, final);
  }

  /** The order of completions that leaves `failing` for last gives `above` up. */
  lemma {:induction false} FailingLast(g: Graph, s: State, x: set<Id>, failing: Id, low: Id, above: Id)
    requires Heading(g, s, x, failing, low, above)
    ensures GivesUp(g, s, above)
    decreases Measure(s)
  {
    if Launch(g, s).running <= {failing} {
      LastTurn(g, s, x, failing, low, above);
    } else {
      var done, next := TurnWithoutFailing(g, s, x, failing, low, above);
      FailingLast(g, next, x, failing, low, above);
      PrependTurn(g, s, done, next, above);
    }
  }

  lemma LastTurn(g: Graph, s: State, x: set<Id>, failing: Id, low: Id, above: Id)
    requires Heading(g, s, x, failing, low, above) && Launch(g, s).running <= {failing}
    ensures GivesUp(g, s, above)
  {
    WaitersStayPending(g, s, failing, low, above);
    var final := FailingIsTheLastJob(g, s, x, failing, low, above);
    RunPrepend(g, s, {failing}, [], final);
  }

  lemma TurnWithoutFailing(g: Graph, s: State, x: set<Id>, failing: Id, low: Id, above: Id)
    returns (done: set<Id>, next: State)
    requires Heading(g, s, x, failing, low, above) && !(Launch(g, s).running <= {failing})
    ensures done != {} && done <= Launch(g, s).running && next == Complete(g, Launch(g, s), done)
    ensures Heading(g, next, x, failing, low, above) && Measure(next) < Measure(s)
  {
    done := Launch(g, s).running - {failing};
    next := Complete(g, Launch(g, s), done);
    TurnKeepsInv(g, s, done);
    TurnDecreasesMeasure(g, s, done);
    TurnAgrees(g, s, x, failing, done);
    WaitersStayPending(g, s, failing, low, above);
  }

  lemma TurnAgrees(g: Graph, s: State, x: set<Id>, failing: Id, done: set<Id>)
    requires Inv(g, s) && IsLeastFixpoint(g, x) && Agrees(g, s.results, x)
    requires done <= Launch(g, s).running && failing in Started(g, x) && failing !in s.results && failing !in done
    ensures Agrees(g, Complete(g, Launch(g, s), done).results, x) && failing !in Complete(g, Launch(g, s), done).results
  {
    LaunchKeepsInv(g, s);
    LaunchAgrees(g, s, x);
    CompleteAgrees(g, Launch(g, s), done, x);
    FailingStaysOpen(g, s, x, failing, done);
  }

  lemma FailingStaysOpen(g: Graph, s: State, x: set<Id>, failing: Id, done: set<Id>)
    requires Inv(g, s) && IsLeastFixpoint(g, x) && Agrees(g, Launch(g, s).results, x)
    requires failing in Started(g, x) && failing !in s.results && failing !in done
    ensures failing !in Complete(g, Launch(g, s), done).results
  {
  }

  lemma ChainIsMislabelled(g: Graph, x: set<Id>)
    requires IsLeastFixpoint(g, x) && BlockedChain(g, x)
    ensures !LabelsExact(g)
  {
    var above, low, failing := LowestBlocked(g, x);
    InitialInv(g);
    FailingLast(g, Initial(g), x, failing, low, above);
    var picks, final :| Run(g, Initial(g), picks, final) && above in final.results && final.results[above].Unrunnable?;
    assert CompleteRun(g, picks, final);
    assert !LabelsExactIn(g, final.results);
  }

  /**
    For fixed outcomes: every run labels exactly the stuck tasks unrunnable iff no unstuck task waits for a
    never-started one.
  */
  lemma UnrunnableMeansStuckExactlyWhen(g: Graph, x: set<Id>)
    requires IsLeastFixpoint(g, x)
    ensures LabelsExact(g) <==> !BlockedChain(g, x)
  {
    if BlockedChain(g, x) {
      ChainIsMislabelled(g, x);
    } else {
      NoChainIsExact(g, x);
    }
  }

  // ---------- Before the run: a condition on the graph alone ----------

  /** No unstuck task waits for a task that itself waits. */
  ghost predicate TwoLevels(g: Graph) {
    forall t, d :: t in g.tasks && !Stuck(g, t) && d in g.tasks[t].deps && d in g.tasks ==> g.tasks[d].deps == []
  }

  ghost predicate ExactForAnyOutcome(g: Graph) {
    forall o: Id -> Outcome :: LabelsExact(g.(outcome := o))
  }

  lemma StuckIgnoresOutcome(g: Graph, o: Id -> Outcome, t: Id)
    ensures Stuck(g.(outcome := o), t) <==> Stuck(g, t)
  {
    var h := g.(outcome := o);
    forall y ensures StuckSet(h, y) <==> StuckSet(g, y) {
      assert forall u :: u in y && u in g.tasks ==> (WaitsOn(h, y, u) <==> WaitsOn(g, y, u));
    }
  }

  /** Some run of `g` exists, and with it the set that ends ok. */
  lemma {:induction false} SomeRun(g: Graph, s: State) returns (picks: seq<set<Id>>, final: State)
    requires Inv(g, s)
    ensures Run(g, s, picks, final)
    decreases Measure(s)
  {
    if s.pending == {} && s.running == {} {
      picks, final := [], s;
    } else {
      LaunchKeepsInv(g, s);
      var l := Launch(g, s);
      if l.running == {} {
        picks, final := [], GiveUpState(l);
      } else {
        CompleteKeepsInv(g, l, l.running);
        TurnDecreasesMeasure(g, s, l.running);
        var picks';
        picks', final := SomeRun(g, Complete(g, l, l.running));
        picks := [l.running] + picks';
        assert picks[1..] == picks';
      }
    }
  }

  lemma LeastFixpointExists(g: Graph) returns (x: set<Id>)
    ensures IsLeastFixpoint(g, x)
  {
    InitialInv(g);
    var picks, final := SomeRun(g, Initial(g));
    RunIsDeterminedByOutcomes(g, picks, final);
    x := OkIds(final.results);
  }

  /** Whatever the jobs do, the label is exact iff the unstuck part of the graph has no chain of three tasks. */
  lemma LabelIsExactForAnyOutcomeExactlyWhen(g: Graph)
    ensures ExactForAnyOutcome(g) <==> TwoLevels(g)
  {
    if TwoLevels(g) {
      forall o: Id -> Outcome ensures LabelsExact(g.(outcome := o)) {
        var h := g.(outcome := o);
        var x := LeastFixpointExists(h);
        forall t, d ensures !BehindBlocked(h, x, t, d) {
          if BehindBlocked(h, x, t, d) {
            StuckIgnoresOutcome(g, o, t);
            DependencyIsNotStuck(g, t, d);
          }
        }
        UnrunnableMeansStuckExactlyWhen(h, x);
      }
    } else {
      var t, d :| t in g.tasks && !Stuck(g, t) && d in g.tasks[t].deps && d in g.tasks && g.tasks[d].deps != [];
      var o: Id -> Outcome := _ => Raised("");
      var h := g.(outcome := o);
      var x := LeastFixpointExists(h);
      StuckIgnoresOutcome(g, o, t);
      assert g.tasks[d].deps[0] !in EndsOkGiven(h, x);
      assert BehindBlocked(h, x, t, d);
      UnrunnableMeansStuckExactlyWhen(h, x);
    }
  }

  const A := Id("a")
  const B := Id("b")
  const C := Id("c")

  function ChainOfThree(): Graph {
    Graph(map[A := Task(A, [], Scheduler.W.None), B := Task(B, [A], Scheduler.W.None),
              C := Task(C, [B], Scheduler.W.None)],
          "host/main", _ => Raised("agent error"))
  }

  lemma ChainIsNotStuck()
    ensures !Stuck(ChainOfThree(), C)
  {
    forall y: set<Id> ensures !(StuckSet(ChainOfThree(), y) && C in y) {
      ChainWaits(y);
    }
  }

  lemma ChainWaits(y: set<Id>)
    ensures var g := ChainOfThree();
            !WaitsOn(g, y, A) && (WaitsOn(g, y, B) ==> A in y) && (WaitsOn(g, y, C) ==> B in y)
  {
  }

  /** In the chain a, b, c where a fails alone, c is labelled unrunnable though nothing is cyclic or unknown. */
  lemma ChainOfThreeIsMislabelled()
    ensures var g := ChainOfThree();
            exists picks, final :: CompleteRun(g, picks, final) && C in final.results
                                   && final.results[C].Unrunnable? && !Stuck(g, C)
  {
    var g := ChainOfThree();
    var x := LeastFixpointExists(g);
    ChainIsNotStuck();
    assert A !in EndsOkGiven(g, x) && A in Started(g, x);
    InitialInv(g);
    FailingLast(g, Initial(g), x, A, B, C);
    var picks, final :| Run(g, Initial(g), picks, final) && C in final.results && final.results[C].Unrunnable?;
    assert CompleteRun(g, picks, final);
  }
}

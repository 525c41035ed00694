/**
  The scheduler one step finer: between two looks of the loop, launched jobs wait for a
  semaphore slot, hold one while their Run lasts, and finish. `limit` zero means no semaphore;
  otherwise the semaphore counts down from it as jobs enter and up as they leave.
*/
module SchedulerSlots {
  import opened Scheduler

  datatype Fine = Fine(atTop: bool, s: State, waiting: set<Id>, inside: set<Id>, finished: set<Id>,
                       permits: W.Option<nat>)

  datatype Move = Round | Enter(t: Id) | Leave(t: Id) | Collect

  ghost predicate FineInv(g: Graph, limit: nat, f: Fine) {
    && Inv(g, f.s)
    && Splits(f.waiting, f.inside, f.finished, f.s.running)
    && (f.permits.Some? <==> limit > 0) && (limit > 0 ==> f.permits.value + |f.inside| == limit)
    && (!f.atTop ==> f.s.running != {})
  }

  predicate Enabled(g: Graph, f: Fine, m: Move)
    requires f.s.pending <= g.tasks.Keys && f.s.results.Keys <= g.tasks.Keys
  {
    match m
    case Round => f.atTop && (f.s.pending != {} || f.s.running != {}) && Launch(g, f.s).running != {}
    case Enter(t) => !f.atTop && t in f.waiting && (f.permits.None? || f.permits.value > 0)
    case Leave(t) => !f.atTop && t in f.inside
    case Collect => !f.atTop && f.finished != {}
  }

  function Acquired(permits: W.Option<nat>): W.Option<nat> {
    if permits.Some? && permits.value > 0 then W.Some(permits.value - 1) else permits
  }

  function Released(permits: W.Option<nat>): W.Option<nat> {
    if permits.Some? then W.Some(permits.value + 1) else permits
  }

  function Apply(g: Graph, f: Fine, m: Move): Fine
    requires f.s.pending <= g.tasks.Keys && f.s.results.Keys <= g.tasks.Keys
  {
    match m
    case Round => f.(atTop := false, s := Launch(g, f.s), waiting := f.waiting + Start(g, f.s))
    case Enter(t) => f.(waiting := f.waiting - {t}, inside := f.inside + {t}, permits := Acquired(f.permits))
    case Leave(t) => f.(inside := f.inside - {t}, finished := f.finished + {t}, permits := Released(f.permits))
    case Collect => f.(atTop := true, s := Complete(g, f.s, f.finished), finished := {})
  }

  function FineInitial(g: Graph, limit: nat): Fine {
    Fine(true, Initial(g), {}, {}, {}, if limit > 0 then W.Some(limit) else W.None)
  }

  lemma FineInitialInv(g: Graph, limit: nat)
    ensures FineInv(g, limit, FineInitial(g, limit))
  {
    InitialInv(g);
  }

  lemma EnterMoves(waiting: set<Id>, inside: set<Id>, finished: set<Id>, running: set<Id>, t: Id)
    requires Splits(waiting, inside, finished, running) && t in waiting
    ensures Splits(waiting - {t}, inside + {t}, finished, running)
    ensures |inside + {t}| == |inside| + 1
  {
    assert waiting - {t} + (inside + {t}) == waiting + inside;
  }

  lemma OneMoves<T>(a: set<T>, b: set<T>, t: T)
    requires t in a && a !! b
    ensures (a - {t}) + (b + {t}) == a + b && (a - {t}) !! (b + {t})
  {
  }

  lemma LeaveMoves(waiting: set<Id>, inside: set<Id>, finished: set<Id>, running: set<Id>, t: Id)
    requires Splits(waiting, inside, finished, running) && t in inside
    ensures Splits(waiting, inside - {t}, finished + {t}, running)
    ensures |inside - {t}| == |inside| - 1
  {
    OneMoves(inside, finished, t);
  }

  lemma CollectMoves(waiting: set<Id>, inside: set<Id>, finished: set<Id>, running: set<Id>)
    requires Splits(waiting, inside, finished, running)
    ensures Splits(waiting, inside, {}, running - finished) && finished <= running
  {
  }

  lemma RoundMoves(waiting: set<Id>, inside: set<Id>, finished: set<Id>, running: set<Id>, start: set<Id>)
    requires Splits(waiting, inside, finished, running) && start !! running
    ensures Splits(waiting + start, inside, finished, running + start)
  {
    assert waiting + start + inside + finished == waiting + inside + finished + start;
  }

  lemma RoundKeepsFineInv(g: Graph, limit: nat, f: Fine)
    requires FineInv(g, limit, f) && Enabled(g, f, Round)
    ensures FineInv(g, limit, Apply(g, f, Round))
  {
    LaunchKeepsInv(g, f.s);
    RoundMoves(f.waiting, f.inside, f.finished, f.s.running, Start(g, f.s));
  }

  lemma CollectKeepsFineInv(g: Graph, limit: nat, f: Fine)
    requires FineInv(g, limit, f) && Enabled(g, f, Collect)
    ensures FineInv(g, limit, Apply(g, f, Collect))
  {
    CollectMoves(f.waiting, f.inside, f.finished, f.s.running);
    CompleteKeepsInv(g, f.s, f.finished);
  }

  lemma MoveKeepsFineInv(g: Graph, limit: nat, f: Fine, m: Move)
    requires FineInv(g, limit, f) && Enabled(g, f, m)
    ensures FineInv(g, limit, Apply(g, f, m))
  {
    match m
    case Round => RoundKeepsFineInv(g, limit, f);
    case Enter(t) => EnterMoves(f.waiting, f.inside, f.finished, f.s.running, t);
    case Leave(t) => LeaveMoves(f.waiting, f.inside, f.finished, f.s.running, t);
    case Collect => CollectKeepsFineInv(g, limit, f);
  }

  /** The moves can be made one after the other. */
  ghost predicate Moves(g: Graph, limit: nat, f: Fine, moves: seq<Move>)
    requires FineInv(g, limit, f)
    decreases |moves|
  {
    moves == [] || (Enabled(g, f, moves[0]) && (MoveKeepsFineInv(g, limit, f, moves[0]);
                                                       Moves(g, limit, Apply(g, f, moves[0]), moves[1..])))
  }

  function After(g: Graph, limit: nat, f: Fine, moves: seq<Move>): Fine
    requires FineInv(g, limit, f) && Moves(g, limit, f, moves)
    decreases |moves|
  {
    if moves == [] then f
    else
      MoveKeepsFineInv(g, limit, f, moves[0]);
      After(g, limit, Apply(g, f, moves[0]), moves[1..])
  }

  lemma {:induction false} MovesKeepFineInv(g: Graph, limit: nat, f: Fine, moves: seq<Move>)
    requires FineInv(g, limit, f) && Moves(g, limit, f, moves)
    ensures FineInv(g, limit, After(g, limit, f, moves))
    decreases |moves|
  {
    if moves != [] {
      MoveKeepsFineInv(g, limit, f, moves[0]);
      MovesKeepFineInv(g, limit, Apply(g, f, moves[0]), moves[1..]);
    }
  }

  /** The moves from the start of a run. */
  ghost predicate MovesFromStart(g: Graph, limit: nat, moves: seq<Move>) {
    FineInitialInv(g, limit);
    Moves(g, limit, FineInitial(g, limit), moves)
  }

  function AfterStart(g: Graph, limit: nat, moves: seq<Move>): Fine
    requires MovesFromStart(g, limit, moves)
  {
    FineInitialInv(g, limit);
    After(g, limit, FineInitial(g, limit), moves)
  }

  lemma StartKeepsFineInv(g: Graph, limit: nat, moves: seq<Move>)
    requires MovesFromStart(g, limit, moves)
    ensures FineInv(g, limit, AfterStart(g, limit, moves))
  {
    FineInitialInv(g, limit);
    MovesKeepFineInv(g, limit, FineInitial(g, limit), moves);
  }

  /** At no moment of any run are more than `limit` Runs inside the semaphore: its count and they add up to `limit`. */
  lemma AtMostLimitInside(g: Graph, limit: nat, moves: seq<Move>)
    requires MovesFromStart(g, limit, moves) && limit > 0
    ensures var f := AfterStart(g, limit, moves);
            |f.inside| <= limit && f.permits.Some? && f.permits.value + |f.inside| == limit
  {
    StartKeepsFineInv(g, limit, moves);
  }

  /** While the loop waits, some job can always move: the semaphore never wedges the run. */
  lemma NeverWedged(g: Graph, limit: nat, f: Fine) returns (m: Move)
    requires FineInv(g, limit, f) && !f.atTop
    ensures Enabled(g, f, m)
  {
    if f.finished != {} {
      m := Collect;
    } else if f.inside != {} {
      var t :| t in f.inside;
      m := Leave(t);
    } else {
      assert f.waiting != {} && |f.inside| == 0;
      var t :| t in f.waiting;
      m := Enter(t);
    }
  }

  /** The run ends in `final` from the fine state `f`. */
  ghost predicate EndsIn(g: Graph, f: Fine, final: State)
    requires f.s.pending <= g.tasks.Keys && f.s.results.Keys <= g.tasks.Keys
  {
    && f.atTop
    && (if f.s.pending == {} && f.s.running == {} then final == f.s
        else Launch(g, f.s).running == {} && final == GiveUpState(Launch(g, f.s)))
  }

  /** Completing a launched round's jobs `picks[0]` and going on with the rest. */
  ghost predicate RunFromWait(g: Graph, l: State, picks: seq<set<Id>>, final: State)
    requires Inv(g, l)
  {
    && picks != [] && picks[0] != {} && picks[0] <= l.running
    && (CompleteKeepsInv(g, l, picks[0]);
        Run(g, Complete(g, l, picks[0]), picks[1..], final))
  }

  /** Every fine run is a run of the loop: slots decide when jobs finish, nothing else. */
  lemma {:induction false} FineRunIsRun(g: Graph, limit: nat, f: Fine, moves: seq<Move>, final: State)
    returns (picks: seq<set<Id>>)
    requires FineInv(g, limit, f) && Moves(g, limit, f, moves)
    requires Inv(g, After(g, limit, f, moves).s) && EndsIn(g, After(g, limit, f, moves), final)
    ensures if f.atTop then Run(g, f.s, picks, final) else RunFromWait(g, f.s, picks, final)
    decreases |moves|
  {
    MovesKeepFineInv(g, limit, f, moves);
    if moves == [] {
      picks := [];
    } else {
      MoveKeepsFineInv(g, limit, f, moves[0]);
      var n := Apply(g, f, moves[0]);
      MovesKeepFineInv(g, limit, n, moves[1..]);
      picks := FineRunIsRun(g, limit, n, moves[1..], final);
      if moves[0].Collect? {
        CompleteKeepsInv(g, f.s, f.finished);
        var rest := picks;
        picks := [f.finished] + rest;
        assert picks[1..] == rest;
      }
    }
  }

  ghost predicate StartEndsIn(g: Graph, limit: nat, moves: seq<Move>, final: State)
    requires MovesFromStart(g, limit, moves)
  {
    StartKeepsFineInv(g, limit, moves);
    EndsIn(g, AfterStart(g, limit, moves), final)
  }

  /** From the start: whatever the slots do, a run that ends is a complete run of the loop. */
  lemma SlotsAreInvisible(g: Graph, limit: nat, moves: seq<Move>, final: State) returns (picks: seq<set<Id>>)
    requires MovesFromStart(g, limit, moves) && StartEndsIn(g, limit, moves, final)
    ensures CompleteRun(g, picks, final)
  {
    StartKeepsFineInv(g, limit, moves);
    FineInitialInv(g, limit);
    picks := FineRunIsRun(g, limit, FineInitial(g, limit), moves, final);
  }
}

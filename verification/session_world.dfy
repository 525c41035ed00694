/**
  One session on disk, and every step any verb takes on it. A verb attaches, works on its own copy of the
  metadata and touches the disk one step at a time; a crash (or an error, which for the disk is the same) may
  come between any two steps. The host repository may move at any time.
*/
module SessionWorld {
  import opened BranchPools
  import opened GitRefs
  import opened Sequences
  import opened Wrappers

  // ---------- Session states ----------

  datatype SessionState = Open | Closing | Closed | FailedToClose | Discarded

  function CloseStart(s: SessionState): Option<SessionState> {
    if s.Open? || s.FailedToClose? then Some(Closing) else None
  }

  function CloseComplete(s: SessionState): Option<SessionState> {
    if s.Closing? then Some(Closed) else None
  }

  function CloseFailed(s: SessionState): Option<SessionState> {
    if s.Closing? then Some(FailedToClose) else None
  }

  function DiscardStart(s: SessionState): Option<SessionState> {
    if s.Open? || s.FailedToClose? then Some(Discarded) else None
  }

  function AcceptNewRun(s: SessionState): Option<SessionState> {
    if s.Open? || s.FailedToClose? then Some(s) else None
  }

  // ---------- The disk ----------

  datatype Meta = Meta(state: SessionState, labels: seq<string>, discardedAt: Option<string>,
                       lastCloseFailure: Option<string>)

  /**
    A directory being removed is broken first. Whether `HEAD` is still there decides whether it opens; `refs` are
    those git can still read in it.
  */
  datatype PoolDir = Gone | Broken(head: bool, refs: Refs) | Intact(refs: Refs)

  datatype TmpFile = NoTmp | Half | Full(meta: Meta)

  datatype Disk = Disk(dir: bool, meta: Option<Meta>, tmp: TmpFile, pool: PoolDir, runs: bool)

  predicate PoolOpens(p: PoolDir) {
    p.Intact? || (p.Broken? && p.head)
  }

  /**
    The metadata a verb gets by attaching; tombstones, missing sessions and pools that do not open cannot be attached.
  */
  function Attachable(d: Disk): Option<Meta> {
    if d.meta.Some? && !d.meta.value.state.Discarded? && PoolOpens(d.pool) then d.meta else None
  }

  // ---------- The verb under way ----------

  datatype Goal = Finish | ThenPush(manifest: seq<ManifestEntry>)

  datatype PC =
    | Idle
    | OpenDir(first: Meta) | OpenPool(first: Meta) | OpenMirror(first: Meta)
    | WriteTmp(meta: Meta, goal: Goal) | Rename(meta: Meta, goal: Goal)
    | Pushing(meta: Meta, manifest: seq<ManifestEntry>)
    | Wiping(meta: Meta) | RemovingRuns(meta: Meta)
    | Running
    | Purging

  /** The last push that ended: what it was asked, and the host right before and right after it. */
  datatype Attempt = Attempt(manifest: seq<ManifestEntry>, pool: Refs, before: Refs, after: Refs, ok: bool)

  datatype World = World(disk: Disk, host: Refs, pc: PC, created: bool, attempts: nat, landed: nat,
                         last: Option<Attempt>)

  const NOTHING := World(Disk(false, None, NoTmp, Gone, false), map[], Idle, false, 0, 0, None)

  datatype Event =
    | HostMoves(refs: Refs)
    | Crash
    | BeginOpen(labels: seq<string>) | MakeDir | InitPool | MirrorIn(refs: Refs)
    | BeginLabel(name: string) | BeginClose(manifest: seq<ManifestEntry>) | BeginDiscard(time: string)
    | BeginRun | BeginPurge
    | TmpWritten(whole: bool) | Renamed
    | PushEnds(ok: bool, after: Refs, message: string)
    | PoolBreaks(head: bool, left: Refs) | PoolGone | RunsGone
    | RunTaken(output: RunOutput, landed: set<nat>) | RunEnds
    | MetaGone | TmpGone | DirGone

  function Begin(w: World, pc: PC): Option<World> {
    Some(w.(pc := pc))
  }

  /** What a push may do, whatever the host did meanwhile: land as a whole, or leave the host alone. */
  ghost predicate PushOutcome(pool: Refs, manifest: seq<ManifestEntry>, before: Refs, ok: bool, after: Refs) {
    if ok then Landed(pool, Select(Kept, manifest), before, after) else after == before
  }

  function RefsOf(p: PoolDir): Refs {
    if p.Gone? then map[] else p.refs
  }

  function WithRefs(p: PoolDir, refs: Refs): PoolDir {
    if p.Gone? then p else p.(refs := refs)
  }

  /** The pool after a removal that stopped inside it; `HEAD` does not come back. */
  function BrokenPool(p: PoolDir, head: bool, left: Refs): PoolDir {
    if p.Gone? then p else Broken(head && PoolOpens(p), left)
  }

  ghost function BeginVerb(w: World, e: Event): Option<World>
    requires w.pc.Idle?
  {
    match e
    case BeginOpen(labels) =>
      if w.created then None
      else Some(w.(pc := OpenDir(Meta(Open, labels, None, None)), created := true))
    case BeginLabel(name) =>
      if Attachable(w.disk).None? then None
      else
        var m := Attachable(w.disk).value;
        Begin(w, WriteTmp(m.(labels := m.labels + [name]), Finish))
    case BeginClose(manifest) =>
      if Attachable(w.disk).None? || CloseStart(Attachable(w.disk).value.state).None? then None
      else
        var m := Attachable(w.disk).value;
        Begin(w, WriteTmp(m.(state := CloseStart(m.state).value, lastCloseFailure := None), ThenPush(manifest)))
    case BeginDiscard(time) =>
      if Attachable(w.disk).None? || DiscardStart(Attachable(w.disk).value.state).None? then None
      else
        var m := Attachable(w.disk).value;
        Begin(w, Wiping(m.(state := DiscardStart(m.state).value, discardedAt := Some(time))))
    case BeginRun =>
      if Attachable(w.disk).None? || AcceptNewRun(Attachable(w.disk).value.state).None? then None
      else Some(w.(pc := Running, disk := w.disk.(runs := true)))
    case BeginPurge =>
      if Attachable(w.disk).None? || !Attachable(w.disk).value.state.Closed? then None else Begin(w, Purging)
    case _ => None
  }

  ghost function StepOn(w: World, e: Event): Option<World> {
    var d := w.disk;
    match (w.pc, e)
    case (OpenDir(m), MakeDir) => Some(w.(disk := d.(dir := true), pc := OpenPool(m)))
    case (OpenPool(m), InitPool) => Some(w.(disk := d.(pool := Intact(map[])), pc := OpenMirror(m)))
    case (OpenMirror(m), MirrorIn(refs)) => Some(w.(disk := d.(pool := Intact(refs)), pc := WriteTmp(m, Finish)))
    case (WriteTmp(m, goal), TmpWritten(whole)) =>
      if whole then Some(w.(disk := d.(tmp := Full(m)), pc := Rename(m, goal)))
        else Some(w.(disk := d.(tmp := Half), pc := Idle))
    case (Rename(m, goal), Renamed) =>
      var next := w.(disk := d.(meta := Some(m), tmp := NoTmp));
      if goal.Finish? then Some(next.(pc := Idle))
      else Some(next.(pc := Pushing(m, goal.manifest), attempts := w.attempts + 1))
    case (Pushing(m, manifest), PushEnds(ok, after, message)) =>
      if !PushOutcome(RefsOf(d.pool), manifest, w.host, ok, after) then None
      else
        var attempt := Attempt(manifest, RefsOf(d.pool), w.host, after, ok);
        if ok && CloseComplete(m.state).Some? then
          Some(w.(host := after, landed := w.landed + 1, last := Some(attempt),
                  pc := WriteTmp(m.(state := CloseComplete(m.state).value), Finish)))
        else if !ok && CloseFailed(m.state).Some? then
          Some(w.(last := Some(attempt),
                  pc := WriteTmp(m.(state := CloseFailed(m.state).value, lastCloseFailure := Some(message)), Finish)))
        else None
    case (Wiping(m), PoolBreaks(head, left)) => Some(w.(disk := d.(pool := BrokenPool(d.pool, head, left))))
    case (Wiping(m), PoolGone) => Some(w.(disk := d.(pool := Gone), pc := RemovingRuns(m)))
    case (RemovingRuns(m), RunsGone) => Some(w.(disk := d.(runs := false), pc := WriteTmp(m, Finish)))
    case (Running, RunTaken(o, landed)) =>
      Some(w.(disk := d.(pool := WithRefs(d.pool, AcceptedInto(RefsOf(d.pool), o, landed)))))
    case (Running, RunEnds) => Some(w.(pc := Idle))
    case (Purging, PoolBreaks(head, left)) => Some(w.(disk := d.(pool := BrokenPool(d.pool, head, left))))
    case (Purging, PoolGone) => Some(w.(disk := d.(pool := Gone)))
    case (Purging, RunsGone) => Some(w.(disk := d.(runs := false)))
    case (Purging, MetaGone) => Some(w.(disk := d.(meta := None)))
    case (Purging, TmpGone) => Some(w.(disk := d.(tmp := NoTmp)))
    case (Purging, DirGone) =>
      if d.pool.Gone? && !d.runs && d.meta.None? && d.tmp.NoTmp? then Some(w.(disk := d.(dir := false), pc := Idle))
        else None
    case _ => None
  }

  ghost function Next(w: World, e: Event): Option<World> {
    match e
    case HostMoves(refs) => Some(w.(host := refs))
    case Crash => Some(w.(pc := Idle))
    case _ => if w.pc.Idle? then BeginVerb(w, e) else StepOn(w, e)
  }

  ghost function After(w: World, events: seq<Event>): Option<World>
    decreases |events|
  {
    if events == [] then Some(w)
    else
      match Next(w, events[0])
      case None => None
      case Some(next) => After(next, events[1..])
  }

  // ---------- What the metadata claims ----------

  ghost predicate LandedWhole(last: Option<Attempt>) {
    last.Some? && last.value.ok
    && Landed(last.value.pool, Select(Kept, last.value.manifest), last.value.before, last.value.after)
  }

  predicate LeftHostAlone(last: Option<Attempt>) {
    last.Some? && !last.value.ok && last.value.after == last.value.before
  }

  /** What must be true of the world for metadata `m` to be on disk. */
  ghost predicate Claims(m: Meta, w: World) {
    match m.state
    case Open => w.attempts == 0 && w.landed == 0
    case Closing => true
    case Closed => w.landed == 1 && LandedWhole(w.last)
    case FailedToClose => w.attempts >= 1 && w.landed == 0 && LeftHostAlone(w.last) && m.lastCloseFailure.Some?
    case Discarded => w.landed == 0 && w.disk.pool.Gone? && !w.disk.runs
  }

  predicate DiskIn(d: Disk, states: set<SessionState>) {
    d.meta.Some? && d.meta.value.state in states
  }

  /** How far the disk may be from the metadata about to be written. */
  predicate MayFollow(d: Disk, m: Meta) {
    match m.state
    case Open => d.meta.None? || DiskIn(d, {Open})
    case Closing => DiskIn(d, {Open, FailedToClose, Closing})
    case Closed => DiskIn(d, {Closing, Closed})
    case FailedToClose => DiskIn(d, {Closing, FailedToClose})
    case Discarded => DiskIn(d, {Open, FailedToClose})
  }

  ghost predicate PCFits(w: World) {
    match w.pc
    case Idle => true
    case OpenDir(m) => m.state.Open? && w.disk.meta.None? && w.attempts == 0 && w.landed == 0
    case OpenPool(m) => m.state.Open? && w.disk.meta.None? && w.attempts == 0 && w.landed == 0
    case OpenMirror(m) => m.state.Open? && w.disk.meta.None? && w.attempts == 0 && w.landed == 0
    case WriteTmp(m, goal) => Claims(m, w) && MayFollow(w.disk, m)
      && (goal.ThenPush? ==> m.state.Closing? && w.landed == 0 && DiskIn(w.disk, {Open, FailedToClose}))
    case Rename(m, goal) => w.disk.tmp == Full(m) && Claims(m, w) && MayFollow(w.disk, m)
      && (goal.ThenPush? ==> m.state.Closing? && w.landed == 0)
    case Pushing(m, _) => w.disk.meta == Some(m) && m.state.Closing? && w.landed == 0 && w.attempts >= 1
    case Wiping(m) => m.state.Discarded? && DiskIn(w.disk, {Open, FailedToClose})
    case RemovingRuns(m) => m.state.Discarded? && DiskIn(w.disk, {Open, FailedToClose}) && w.disk.pool.Gone?
    case Running => DiskIn(w.disk, {Open, FailedToClose})
    case Purging => w.disk.meta.None? || DiskIn(w.disk, {Closed})
  }

  ghost predicate Inv(w: World) {
    && w.landed <= 1
    && (!w.created ==> w.pc.Idle? && w.attempts == 0 && w.landed == 0 && w.disk.meta.None?)
    && (w.disk.meta.Some? ==> Claims(w.disk.meta.value, w))
    && PCFits(w)
  }

  lemma BeginKeepsInv(w: World, e: Event)
    requires Inv(w) && w.pc.Idle? && BeginVerb(w, e).Some?
    ensures Inv(BeginVerb(w, e).value)
  {
  }

  lemma OpeningKeepsInv(w: World, e: Event)
    requires Inv(w) && (w.pc.OpenDir? || w.pc.OpenPool? || w.pc.OpenMirror?) && StepOn(w, e).Some?
    ensures Inv(StepOn(w, e).value)
  {
  }

  lemma TmpKeepsInv(w: World, e: Event)
    requires Inv(w) && w.pc.WriteTmp? && StepOn(w, e).Some?
    ensures Inv(StepOn(w, e).value)
  {
  }

  lemma RenameKeepsInv(w: World, e: Event)
    requires Inv(w) && w.pc.Rename? && StepOn(w, e).Some?
    ensures Inv(StepOn(w, e).value)
  {
  }

  lemma PushKeepsInv(w: World, e: Event)
    requires Inv(w) && w.pc.Pushing? && StepOn(w, e).Some?
    ensures Inv(StepOn(w, e).value)
  {
  }

  lemma WipeKeepsInv(w: World, e: Event)
    requires Inv(w) && (w.pc.Wiping? || w.pc.RemovingRuns?) && StepOn(w, e).Some?
    ensures Inv(StepOn(w, e).value)
  {
  }

  lemma RunningKeepsInv(w: World, e: Event)
    requires Inv(w) && w.pc.Running? && StepOn(w, e).Some?
    ensures Inv(StepOn(w, e).value)
  {
  }

  lemma PurgeKeepsInv(w: World, e: Event)
    requires Inv(w) && w.pc.Purging? && StepOn(w, e).Some?
    ensures Inv(StepOn(w, e).value)
  {
  }

  lemma StepKeepsInv(w: World, e: Event)
    requires Inv(w) && StepOn(w, e).Some?
    ensures Inv(StepOn(w, e).value)
  {
    match w.pc
    case Idle =>
    case OpenDir(_) => OpeningKeepsInv(w, e);
    case OpenPool(_) => OpeningKeepsInv(w, e);
    case OpenMirror(_) => OpeningKeepsInv(w, e);
    case WriteTmp(_, _) => TmpKeepsInv(w, e);
    case Rename(_, _) => RenameKeepsInv(w, e);
    case Pushing(_, _) => PushKeepsInv(w, e);
    case Wiping(_) => WipeKeepsInv(w, e);
    case RemovingRuns(_) => WipeKeepsInv(w, e);
    case Running => RunningKeepsInv(w, e);
    case Purging => PurgeKeepsInv(w, e);
  }

  lemma OutsideKeepsInv(w: World, host: Refs)
    requires Inv(w)
    ensures Inv(w.(host := host)) && Inv(w.(pc := Idle))
  {
  }

  lemma NextKeepsInv(w: World, e: Event)
    requires Inv(w) && Next(w, e).Some?
    ensures Inv(Next(w, e).value)
  {
    if e.HostMoves? {
      OutsideKeepsInv(w, e.refs);
    } else if e.Crash? {
      OutsideKeepsInv(w, w.host);
    } else if w.pc.Idle? {
      BeginKeepsInv(w, e);
    } else {
      StepKeepsInv(w, e);
    }
  }

  lemma {:induction false} RunKeepsInv(w: World, events: seq<Event>)
    requires Inv(w) && After(w, events).Some?
    ensures Inv(After(w, events).value)
    decreases |events|
  {
    if events != [] {
      NextKeepsInv(w, events[0]);
      RunKeepsInv(Next(w, events[0]).value, events[1..]);
    }
  }

  // ---------- Every run ----------

  ghost predicate LeadsTo(v: World, w: World) {
    exists events :: After(v, events) == Some(w)
  }

  ghost predicate Reachable(w: World) {
    LeadsTo(NOTHING, w)
  }

  lemma {:induction false} AfterOneMore(w: World, events: seq<Event>, e: Event)
    requires After(w, events).Some? && Next(After(w, events).value, e).Some?
    ensures After(w, events + [e]) == Next(After(w, events).value, e)
    decreases |events|
  {
    if events == [] {
      assert [e][1..] == [] && events + [e] == [e];
      assert After(Next(w, e).value, []) == Next(w, e);
    } else {
      assert (events + [e])[1..] == events[1..] + [e];
      AfterOneMore(Next(w, events[0]).value, events[1..], e);
    }
  }

  lemma LeadsOn(v: World, w: World, e: Event)
    requires LeadsTo(v, w) && Next(w, e).Some?
    ensures LeadsTo(v, Next(w, e).value)
  {
    var events :| After(v, events) == Some(w);
    AfterOneMore(v, events, e);
    assert After(v, events + [e]) == Some(Next(w, e).value);
  }

  lemma Reach(w: World, e: Event)
    requires Reachable(w) && Next(w, e).Some?
    ensures Reachable(Next(w, e).value)
  {
    LeadsOn(NOTHING, w, e);
  }

  /** The world once the metadata being written is in place. */
  function Written(w: World): World
    requires w.pc.WriteTmp?
  {
    var next := w.(disk := w.disk.(meta := Some(w.pc.meta), tmp := NoTmp));
    match w.pc.goal
    case Finish => next.(pc := Idle)
    case ThenPush(manifest) => next.(pc := Pushing(w.pc.meta, manifest), attempts := w.attempts + 1)
  }

  lemma WritingLeads(v: World, w: World)
    requires LeadsTo(v, w) && w.pc.WriteTmp?
    ensures LeadsTo(v, Written(w))
  {
    LeadsOn(v, w, TmpWritten(true));
    LeadsOn(v, w.(disk := w.disk.(tmp := Full(w.pc.meta)), pc := Rename(w.pc.meta, w.pc.goal)), Renamed);
  }

  lemma WritingReaches(w: World)
    requires Reachable(w) && w.pc.WriteTmp?
    ensures Reachable(Written(w))
  {
    WritingLeads(NOTHING, w);
  }

  lemma ReachableIsInv(w: World)
    requires Reachable(w)
    ensures Inv(w)
  {
    var events :| After(NOTHING, events) == Some(w);
    RunKeepsInv(NOTHING, events);
  }

  /**
    Whatever verbs ran and wherever they crashed: a session that reads as open was never pushed; closed means one push
    landed, all of it; failed to close means none ever landed, the last attempt left the host alone and its reason is
    stored; discarded means pool and runs are gone. No session ever lands more than one push.
  */
  lemma DiskTellsTheTruth(w: World)
    requires Reachable(w) && w.disk.meta.Some?
    ensures w.landed <= 1
    ensures var m := w.disk.meta.value;
            && (m.state.Open? ==> w.attempts == 0)
            && (m.state.Closed? ==> w.landed == 1 && LandedWhole(w.last))
            && (m.state.FailedToClose? ==> w.landed == 0 && LeftHostAlone(w.last) && m.lastCloseFailure.Some?)
            && (m.state.Discarded? ==> w.landed == 0 && w.disk.pool.Gone? && !w.disk.runs)
  {
    ReachableIsInv(w);
  }

  lemma FewStepsMatter(w: World, e: Event)
    requires Next(w, e).Some? && !e.HostMoves? && !e.Crash?
    ensures var next := Next(w, e).value;
            && (next.host != w.host ==> e.PushEnds? && e.ok && w.pc.Pushing? && next.disk == w.disk)
            && (next.disk.meta != w.disk.meta ==>
                  || (e.Renamed? && w.pc.Rename? && next.disk.meta == Some(w.pc.meta))
                  || (w.pc.Purging? && next.disk.meta == None))
  {
    if w.pc.Idle? {
      assert BeginVerb(w, e).value.host == w.host && BeginVerb(w, e).value.disk.meta == w.disk.meta;
    }
  }

  /** Bunsen writes to the host only by a push that lands, and only while the disk says closing. */
  lemma HostIsWrittenOnlyWhileClosing(w: World, e: Event)
    requires Reachable(w) && Next(w, e).Some? && !e.HostMoves? && Next(w, e).value.host != w.host
    ensures e.PushEnds? && e.ok && w.pc.Pushing?
    ensures w.disk.meta.Some? && w.disk.meta.value.state.Closing? && Next(w, e).value.disk == w.disk
  {
    ReachableIsInv(w);
    assert !e.Crash?;
    FewStepsMatter(w, e);
  }

  function StateOf(d: Disk): Option<SessionState> {
    if d.meta.Some? then Some(d.meta.value.state) else None
  }

  /** The moves of the state on disk; `None` is no metadata. */
  predicate StateMoves(before: Option<SessionState>, after: Option<SessionState>) {
    before == after
    || (before == None && after == Some(Open))
    || (before in {Some(Open), Some(FailedToClose)} && after in {Some(Closing), Some(Discarded)})
    || (before == Some(Closing) && after in {Some(Closed), Some(FailedToClose)})
    || (before == Some(Closed) && after == None)
  }

  /** Every step of every run moves the state on disk along the lifecycle, or not at all. */
  lemma DiskFollowsTheLifecycle(w: World, e: Event)
    requires Reachable(w) && Next(w, e).Some?
    ensures StateMoves(StateOf(w.disk), StateOf(Next(w, e).value.disk))
  {
    ReachableIsInv(w);
    if !e.HostMoves? && !e.Crash? {
      FewStepsMatter(w, e);
    }
  }

  // ---------- What a crash leaves behind ----------

  /** Nothing but labels is ever written again. */
  ghost predicate StuckClosing(w: World) {
    StateOf(w.disk) == Some(Closing) && w.created
    && match w.pc
       case Idle => true
       case WriteTmp(m, goal) => m.state.Closing? && goal.Finish?
       case Rename(m, goal) => m.state.Closing? && goal.Finish?
       case _ => false
  }

  lemma StuckStays(w: World, e: Event)
    requires StuckClosing(w) && Next(w, e).Some?
    ensures var next := Next(w, e).value;
            StuckClosing(next) && next.attempts == w.attempts && next.landed == w.landed
              && (e.HostMoves? || next.host == w.host)
  {
  }

  /**
    A verb that stops while the disk says closing leaves it so for good: no later verb pushes, closes, discards or
    purges.
  */
  lemma {:induction false} ClosingIsForGood(w: World, events: seq<Event>)
    requires StuckClosing(w) && After(w, events).Some?
    ensures var last := After(w, events).value;
            StateOf(last.disk) == Some(Closing) && last.attempts == w.attempts && last.landed == w.landed
    decreases |events|
  {
    if events != [] {
      StuckStays(w, events[0]);
      ClosingIsForGood(Next(w, events[0]).value, events[1..]);
    }
  }

  /** A session whose pool no longer opens. */
  ghost predicate Stranded(w: World) {
    w.pc.Idle? && w.disk.meta.Some? && w.created && !PoolOpens(w.disk.pool)
  }

  /**
    A discard that stops after `HEAD` is gone and before the tombstone strands the session: no later verb changes
    anything.
  */
  lemma {:induction false} StrandedIsForGood(w: World, events: seq<Event>)
    requires Stranded(w) && After(w, events).Some?
    ensures After(w, events).value.disk == w.disk && After(w, events).value.attempts == w.attempts
    decreases |events|
  {
    if events != [] {
      var next := Next(w, events[0]).value;
      assert Stranded(next) && next.disk == w.disk && next.attempts == w.attempts;
      StrandedIsForGood(next, events[1..]);
    }
  }

  /** Some course of events, verbs and crashes alike, ends the session. */
  ghost predicate CanEnd(w: World) {
    exists last :: LeadsTo(w, last) && StateOf(last.disk) in {Some(Closed), Some(Discarded)}
  }

  lemma StaysUnended(w: World, last: World)
    requires StuckClosing(w) || (Stranded(w) && !(StateOf(w.disk) in {Some(Closed), Some(Discarded)}))
    requires LeadsTo(w, last)
    ensures !(StateOf(last.disk) in {Some(Closed), Some(Discarded)})
  {
    var events :| After(w, events) == Some(last);
    if StuckClosing(w) {
      ClosingIsForGood(w, events);
    } else {
      StrandedIsForGood(w, events);
    }
  }

  lemma DiscardStep(w: World, m: Meta, time: string)
    requires w.pc.Idle? && Attachable(w.disk) == Some(m) && m.state in {Open, FailedToClose}
    ensures Next(w, BeginDiscard(time)) == Some(w.(pc := Wiping(m.(state := Discarded, discardedAt := Some(time)))))
  {
  }

  lemma WipeStep(w: World)
    requires w.pc.Wiping?
    ensures Next(w, PoolGone) == Some(w.(disk := w.disk.(pool := Gone), pc := RemovingRuns(w.pc.meta)))
  {
  }

  lemma RunsStep(w: World)
    requires w.pc.RemovingRuns?
    ensures Next(w, RunsGone) == Some(w.(disk := w.disk.(runs := false), pc := WriteTmp(w.pc.meta, Finish)))
  {
  }

  /** A discard that nothing stops, up to the tombstone. */
  lemma DiscardWipes(w: World, m: Meta)
    requires w.pc.Idle? && Attachable(w.disk) == Some(m) && m.state in {Open, FailedToClose}
    ensures var tombstone := m.(state := Discarded, discardedAt := Some(""));
            LeadsTo(w, w.(disk := w.disk.(pool := Gone, runs := false), pc := WriteTmp(tombstone, Finish)))
  {
    var wiping := w.(pc := Wiping(m.(state := Discarded, discardedAt := Some(""))));
    var gone := wiping.(disk := w.disk.(pool := Gone), pc := RemovingRuns(wiping.pc.meta));
    assert After(w, []) == Some(w);
    DiscardStep(w, m, "");
    LeadsOn(w, w, BeginDiscard(""));
    WipeStep(wiping);
    LeadsOn(w, wiping, PoolGone);
    RunsStep(gone);
    LeadsOn(w, gone, RunsGone);
  }

  lemma DiscardEnds(w: World, m: Meta)
    requires w.pc.Idle? && Attachable(w.disk) == Some(m) && m.state in {Open, FailedToClose}
    ensures CanEnd(w)
  {
    var tombstone := m.(state := Discarded, discardedAt := Some(""));
    var cleared := w.(disk := w.disk.(pool := Gone, runs := false), pc := WriteTmp(tombstone, Finish));
    DiscardWipes(w, m);
    WritingLeads(w, cleared);
    assert StateOf(Written(cleared).disk) == Some(Discarded);
  }

  /**
    Wherever verbs stopped: a session with metadata can still be ended exactly when it already is, or the disk says open
    or failed to close and the pool still opens.
  */
  lemma CanEndExactlyWhen(w: World)
    requires Reachable(w) && w.pc.Idle? && w.disk.meta.Some?
    ensures CanEnd(w) <==>
            || StateOf(w.disk) in {Some(Closed), Some(Discarded)}
            || (StateOf(w.disk) in {Some(Open), Some(FailedToClose)} && PoolOpens(w.disk.pool))
  {
    ReachableIsInv(w);
    assert After(w, []) == Some(w);
    if StateOf(w.disk) in {Some(Open), Some(FailedToClose)} && PoolOpens(w.disk.pool) {
      DiscardEnds(w, w.disk.meta.value);
    } else if !(StateOf(w.disk) in {Some(Closed), Some(Discarded)}) && CanEnd(w) {
      var last :| LeadsTo(w, last) && StateOf(last.disk) in {Some(Closed), Some(Discarded)};
      StaysUnended(w, last);
    }
  }

  // ---------- Two runs that show the limits ----------

  /** The world while `meta` is about to be written for the first time. */
  function Fresh(meta: Meta, refs: Refs): World {
    World(Disk(true, None, NoTmp, Intact(refs), false), map[], WriteTmp(meta, Finish), true, 0, 0, None)
  }

  lemma FreshIsReachable(labels: seq<string>, refs: Refs)
    ensures Reachable(Fresh(Meta(Open, labels, None, None), refs))
  {
    var m := Meta(Open, labels, None, None);
    assert After(NOTHING, []) == Some(NOTHING);
    Reach(NOTHING, BeginOpen(labels));
    var w := Next(NOTHING, BeginOpen(labels)).value;
    Reach(w, MakeDir);
    w := w.(disk := w.disk.(dir := true), pc := OpenPool(m));
    Reach(w, InitPool);
    w := w.(disk := w.disk.(pool := Intact(map[])), pc := OpenMirror(m));
    Reach(w, MirrorIn(refs));
  }

  const FRESH_META := Meta(Open, [], None, None)

  lemma OpenedIsReachable() returns (w: World)
    ensures Reachable(w) && w == Written(Fresh(FRESH_META, map[]))
  {
    w := Written(Fresh(FRESH_META, map[]));
    FreshIsReachable([], map[]);
    WritingReaches(Fresh(FRESH_META, map[]));
  }

  lemma ClosingIsReachable() returns (w: World)
    ensures Reachable(w) && w.created && w.host == map[] && w.attempts == 1 && w.landed == 0
    ensures w.disk == Disk(true, Some(FRESH_META.(state := Closing)), NoTmp, Intact(map[]), false)
    ensures w.pc == Pushing(FRESH_META.(state := Closing), [])
  {
    w := OpenedIsReachable();
    Reach(w, BeginClose([]));
    w := w.(pc := WriteTmp(FRESH_META.(state := Closing), ThenPush([])));
    WritingReaches(w);
    w := Written(w);
  }

  /**
    The disk of a stuck closing session does not tell whether its push landed: two runs leave the same disk, one
    having pushed.
  */
  lemma ClosingDoesNotTell() returns (before: World, after: World)
    ensures Reachable(before) && StuckClosing(before) && before.landed == 0
    ensures Reachable(after) && StuckClosing(after) && after.landed == 1
    ensures before.disk == after.disk
  {
    var w := ClosingIsReachable();
    Reach(w, Crash);
    before := Next(w, Crash).value;
    NothingToPush(map[], Select(Kept, []), map[]);
    var e := PushEnds(true, map[], "");
    Reach(w, e);
    var pushed := Next(w, e).value;
    Reach(pushed, Crash);
    after := Next(pushed, Crash).value;
  }

  /** A crashed discard can leave a session that still reads as open and can never be discarded. */
  lemma DiscardCanStrand() returns (w: World)
    ensures Reachable(w) && Stranded(w) && StateOf(w.disk) == Some(Open)
  {
    w := OpenedIsReachable();
    var wiping := w.(pc := Wiping(FRESH_META.(state := Discarded, discardedAt := Some(""))));
    DiscardStep(w, FRESH_META, "");
    Reach(w, BeginDiscard(""));
    WipeStep(wiping);
    Reach(wiping, PoolGone);
    w := w.(disk := w.disk.(pool := Gone));
    Reach(w.(pc := RemovingRuns(wiping.pc.meta)), Crash);
  }
}

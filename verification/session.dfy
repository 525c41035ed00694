/**
  The session handle: its verbs as code over the handle's metadata, the session directory, the pool and the
  host. Each verb keeps `world` in step, so whatever it does is a run of the machine in `SessionWorld`.
*/
module Sessions {
  import opened BranchPools
  import opened GitRefs
  import opened Sequences
  import opened SessionWorld
  import opened Wrappers

  datatype SessionError =
    | Io | NotFound | NoDefaultBranch
    | PoolFailed(error: PoolError)
    | Transition(from: SessionState)

  /** Where writing the metadata stops: nowhere, in the temporary file, or before the rename. */
  datatype WriteFault = NoFault | WriteFails | RenameFails

  /** A wipe that stops: whether `HEAD` is still there, and the refs git can still read. */
  datatype WipeFault = Stops(head: bool, left: Refs)

  datatype Condition = Sound | Damaged(head: bool) | Removed

  function Describe(e: PoolError): string {
    match e
    case Git => "git error"
    case ReservedNamespace(name) => "ref name " + name.text + " falls in reserved namespace"
    case RefAlreadyExists(name) => "ref " + name.text + " already exists in pool; refusing to overwrite"
    case NotFastForward(p, h) => "non-fast-forward push " + p.text + " -> " + h.text + " requires force: true"
  }

  /**
    The reason a refused push leaves names both refs and the way out; the other reasons name the ref they are about.
  */
  lemma ReasonsName(a: Name, b: Name)
    ensures Describe(NotFastForward(a, b))
            == "non-fast-forward push " + a.text + " -> " + b.text + " requires force: true"
    ensures Describe(RefAlreadyExists(a)) == "ref " + a.text + " already exists in pool; refusing to overwrite"
    ensures Describe(ReservedNamespace(a)) == "ref name " + a.text + " falls in reserved namespace"
  {
  }

  // ---------- Where each move of a verb takes the machine ----------

  lemma LabelBegins(w: World, m: Meta, name: string)
    requires Reachable(w) && w.pc.Idle? && Attachable(w.disk) == Some(m)
    ensures Reachable(w.(pc := WriteTmp(m.(labels := m.labels + [name]), Finish)))
  {
    Reach(w, BeginLabel(name));
  }

  lemma CloseBegins(w: World, m: Meta, manifest: seq<ManifestEntry>)
    requires Reachable(w) && w.pc.Idle? && Attachable(w.disk) == Some(m) && m.state in {Open, FailedToClose}
    ensures Reachable(w.(pc := WriteTmp(m.(state := Closing, lastCloseFailure := None), ThenPush(manifest))))
  {
    Reach(w, BeginClose(manifest));
  }

  function PushedWorld(w: World, ok: bool, after: Refs, m: Meta): World
    requires w.pc.Pushing?
  {
    w.(host := after, landed := if ok then w.landed + 1 else w.landed, pc := WriteTmp(m, Finish),
       last := Some(Attempt(w.pc.manifest, RefsOf(w.disk.pool), w.host, after, ok)))
  }

  lemma PushLandedIn(w: World, after: Refs)
    requires Reachable(w) && w.pc.Pushing? && w.pc.meta.state.Closing?
    requires Landed(RefsOf(w.disk.pool), Select(Kept, w.pc.manifest), w.host, after)
    ensures Reachable(PushedWorld(w, true, after, w.pc.meta.(state := Closed)))
  {
    Reach(w, PushEnds(true, after, ""));
  }

  lemma PushFailedIn(w: World, message: string)
    requires Reachable(w) && w.pc.Pushing? && w.pc.meta.state.Closing?
    ensures var m := w.pc.meta.(state := FailedToClose, lastCloseFailure := Some(message));
            Reachable(PushedWorld(w, false, w.host, m))
  {
    Reach(w, PushEnds(false, w.host, message));
  }

  /** The pool after a run's output was taken in. */
  function Accepting(p: PoolDir, output: RunOutput, landed: set<nat>): PoolDir {
    WithRefs(p, AcceptedInto(RefsOf(p), output, landed))
  }

  lemma RunStep(w: World, m: Meta)
    requires w.pc.Idle? && Attachable(w.disk) == Some(m) && m.state in {Open, FailedToClose}
    ensures Next(w, BeginRun) == Some(w.(pc := Running, disk := w.disk.(runs := true)))
  {
  }

  lemma TakenStep(w: World, output: RunOutput, landed: set<nat>)
    requires w.pc.Running?
    ensures Next(w, RunTaken(output, landed))
            == Some(w.(disk := w.disk.(pool := Accepting(w.disk.pool, output, landed))))
  {
  }

  lemma RunsWhole(w: World, m: Meta, output: RunOutput, landed: set<nat>)
    requires Reachable(w) && w.pc.Idle? && Attachable(w.disk) == Some(m) && m.state in {Open, FailedToClose}
    ensures Reachable(w.(disk := w.disk.(runs := true, pool := Accepting(w.disk.pool, output, landed))))
  {
    var running := w.(pc := Running, disk := w.disk.(runs := true));
    RunStep(w, m);
    Reach(w, BeginRun);
    TakenStep(running, output, landed);
    Reach(running, RunTaken(output, landed));
    Reach(running.(disk := running.disk.(pool := Accepting(w.disk.pool, output, landed))), RunEnds);
  }

  lemma DiscardBegins(w: World, m: Meta, time: string)
    requires Reachable(w) && w.pc.Idle? && Attachable(w.disk) == Some(m) && m.state in {Open, FailedToClose}
    ensures Reachable(w.(pc := Wiping(m.(state := Discarded, discardedAt := Some(time)))))
  {
    DiscardStep(w, m, time);
    Reach(w, BeginDiscard(time));
  }

  lemma WipeStops(w: World, head: bool, left: Refs)
    requires Reachable(w) && w.pc.Wiping?
    ensures Reachable(w.(disk := w.disk.(pool := BrokenPool(w.disk.pool, head, left)), pc := Idle))
  {
    Reach(w, PoolBreaks(head, left));
    Reach(w.(disk := w.disk.(pool := BrokenPool(w.disk.pool, head, left))), Crash);
  }

  lemma WipeEnds(w: World)
    requires Reachable(w) && w.pc.Wiping?
    ensures var gone := w.(disk := w.disk.(pool := Gone));
            && Reachable(gone.(pc := Idle))
            && Reachable(gone.(disk := gone.disk.(runs := false), pc := WriteTmp(w.pc.meta, Finish)))
  {
    var gone := w.(disk := w.disk.(pool := Gone), pc := RemovingRuns(w.pc.meta));
    WipeStep(w);
    Reach(w, PoolGone);
    Reach(gone, Crash);
    RunsStep(gone);
    Reach(gone, RunsGone);
  }

  /** The branches to mirror: those asked for, or else the default one. */
  function Mirrors(mirrorRefs: seq<string>, defaultBranch: Option<string>): seq<string> {
    if mirrorRefs != [] then mirrorRefs else if defaultBranch.Some? then [defaultBranch.value] else []
  }

  class Session {
    var meta: Meta
    var onDisk: Option<Meta>
    var tmp: TmpFile
    var runs: bool
    var poolDir: Condition
    const pool: BranchPool
    const host: HostRepo
    ghost var world: World

    ghost function DiskNow(): Disk
      reads this, pool
    {
      var dir :=
        match poolDir
        case Sound => Intact(pool.refs)
        case Damaged(head) => Broken(head, pool.refs)
        case Removed => Gone;
      Disk(true, onDisk, tmp, dir, runs)
    }

    /** The machine is where the code is. */
    ghost predicate Follows()
      reads this, pool, host
    {
      world.disk == DiskNow() && world.host == host.refs && Reachable(world)
    }

    /** A handle as attaching gives it. */
    ghost predicate Attached()
      reads this, pool, host
    {
      Follows() && world.pc.Idle? && Attachable(world.disk) == Some(meta)
    }

    constructor (host: HostRepo, pool: BranchPool, labels: seq<string>)
      ensures this.host == host && this.pool == pool && Attached()
      ensures meta == Meta(Open, labels, None, None) && onDisk == Some(meta) && poolDir.Sound?
    {
      this.host, this.pool := host, pool;
      var m := Meta(Open, labels, None, None);
      meta, onDisk, tmp, runs, poolDir := m, Some(m), NoTmp, false, Sound;
      world := Written(Fresh(m, pool.refs)).(host := host.refs);
      new;
      FreshIsReachable(labels, pool.refs);
      WritingReaches(Fresh(m, pool.refs));
      Reach(Written(Fresh(m, pool.refs)), HostMoves(host.refs));
    }

    /**
      Opens a session: a new pool, the named host branches (or else the default branch) mirrored into it and nothing
      else, and the metadata written last.
    */
    static method OpenIn(host: HostRepo, mirrorRefs: seq<string>, defaultBranch: Option<string>,
                         optLabel: Option<string>,
                         initFails: bool, mirrorFails: bool, landed: set<nat>, fault: WriteFault)
      returns (r: Result<Session, SessionError>)
      ensures r.Ok? ==>
                && fresh(r.value) && fresh(r.value.pool) && r.value.host == host && r.value.Attached()
                && r.value.meta == Meta(Open, if optLabel.Some? then [optLabel.value] else [], None, None)
                && (mirrorRefs != [] || defaultBranch.Some?)
                && MirrorsInto(map[], r.value.pool.refs, host.refs,
                               if mirrorRefs != [] then mirrorRefs else [defaultBranch.value])
                && r.value.pool.temps == map[]
      ensures r == Err(NoDefaultBranch) <==> mirrorRefs == [] && defaultBranch.None?
      ensures r.Ok? <==> Mirrors(mirrorRefs, defaultBranch) != [] && !initFails && !mirrorFails && fault.NoFault?
                         && forall i :: 0 <= i < |Mirrors(mirrorRefs, defaultBranch)| ==>
                              Name(Mirrors(mirrorRefs, defaultBranch)[i]) in host.refs
    {
      if mirrorRefs == [] && defaultBranch.None? {
        return Err(NoDefaultBranch);
      }
      var branches := Mirrors(mirrorRefs, defaultBranch);
      if initFails {
        return Err(PoolFailed(Git));
      }
      var pool := new BranchPool();
      var mirrored := pool.MirrorFromHost(host.refs, branches, landed, mirrorFails);
      if !mirrored {
        return Err(PoolFailed(Git));
      }
      if !fault.NoFault? {
        return Err(Io);
      }
      var session := new Session(host, pool, if optLabel.Some? then [optLabel.value] else []);
      return Ok(session);
    }

    /** Reads the metadata anew; a missing session, a tombstone and a pool that does not open cannot be attached. */
    method Attach(readFails: bool) returns (r: Result<(), SessionError>)
      requires Follows() && world.pc.Idle?
      modifies this`meta
      ensures Follows() && world.pc.Idle?
      ensures r.Ok? <==> !readFails && Attachable(world.disk).Some?
      ensures r.Ok? <==> !readFails && onDisk.Some? && !onDisk.value.state.Discarded?
                         && (poolDir.Sound? || poolDir == Damaged(true))
      ensures r.Ok? ==> Attached() && Some(meta) == onDisk
      ensures !readFails ==> (r == Err(NotFound) <==> onDisk.None? || onDisk.value.state.Discarded?)
      ensures r.Err? ==> meta == old(meta) && r.error in {NotFound, PoolFailed(Git), Io}
    {
      if onDisk.Some? && readFails {
        return Err(Io);
      }
      if onDisk.None? || onDisk.value.state.Discarded? {
        return Err(NotFound);
      }
      if poolDir.Removed? || (poolDir.Damaged? && !poolDir.head) {
        return Err(PoolFailed(Git));
      }
      meta := onDisk.value;
      return Ok(());
    }

    /** Writes the temporary file and renames it; what is on disk is the old metadata or the new. */
    method WriteMetaAtomic(fault: WriteFault) returns (ok: bool)
      requires Follows() && world.pc.WriteTmp? && world.pc.meta == meta
      modifies this`onDisk, this`tmp, this`world
      ensures Follows() && (ok <==> fault.NoFault?)
      ensures ok ==> onDisk == Some(meta) && world == Written(old(world))
      ensures !ok ==> onDisk == old(onDisk) && world.pc.Idle? && world.attempts == old(world).attempts
    {
      if fault.WriteFails? {
        tmp := Half;
        Reach(world, TmpWritten(false));
        world := Next(world, TmpWritten(false)).value;
        return false;
      }
      tmp := Full(meta);
      Reach(world, TmpWritten(true));
      ghost var half := Next(world, TmpWritten(true)).value;
      if fault.RenameFails? {
        Reach(half, Crash);
        world := Next(half, Crash).value;
        return false;
      }
      onDisk, tmp := Some(meta), NoTmp;
      WritingReaches(world);
      world := Written(world);
      return true;
    }

    method Label(name: string, fault: WriteFault) returns (r: Result<(), SessionError>)
      requires Attached()
      modifies this
      ensures Follows() && world.pc.Idle?
      ensures r.Ok? <==> fault.NoFault?
      ensures r.Ok? ==> Attached() && meta == old(meta).(labels := old(meta).labels + [name]) && onDisk == Some(meta)
      ensures r.Err? ==> onDisk == old(onDisk)
      ensures runs == old(runs) && poolDir == old(poolDir)
    {
      LabelBegins(world, meta, name);
      meta := meta.(labels := meta.labels + [name]);
      world := world.(pc := WriteTmp(meta, Finish));
      var ok := WriteMetaAtomic(fault);
      return if ok then Ok(()) else Err(Io);
    }

    /** The first write of a close: from then on the disk says closing. */
    method StartClosing(manifest: seq<ManifestEntry>, fault: WriteFault) returns (ok: bool)
      requires Attached() && meta.state in {Open, FailedToClose}
      modifies this
      ensures Follows() && (ok <==> fault.NoFault?)
      ensures meta == old(meta).(state := Closing, lastCloseFailure := None) && poolDir == old(poolDir)
      ensures ok ==> onDisk == Some(meta) && world.pc == Pushing(meta, manifest)
      ensures !ok ==> onDisk == old(onDisk) && world.pc.Idle?
    {
      CloseBegins(world, meta, manifest);
      meta := meta.(state := CloseStart(meta.state).value, lastCloseFailure := None);
      world := world.(pc := WriteTmp(meta, ThenPush(manifest)));
      ok := WriteMetaAtomic(fault);
    }

    /** The push between the two writes of a close, and the state to write after it. */
    method PushAndSettle(manifest: seq<ManifestEntry>, s: Surroundings) returns (r: Result<(), PoolError>)
      requires Follows() && world.pc == Pushing(meta, manifest) && meta.state.Closing? && !poolDir.Removed?
      modifies this`meta, this`world, host, pool`temps
      ensures Follows() && world.pc == WriteTmp(meta, Finish)
      ensures meta == if r.Ok? then old(meta).(state := Closed)
                      else old(meta).(state := FailedToClose, lastCloseFailure := Some(Describe(r.error)))
      ensures r.Ok? ==> Landed(pool.refs, Select(Kept, manifest), old(host.refs), host.refs)
      ensures r.Ok? ==> ManifestLanded(pool.refs, manifest, old(host.refs), host.refs)
      ensures r.Err? ==> host.refs == old(host.refs)
      ensures Quiet(s, old(host.refs)) ==>
                (r.Ok? <==> Pushable(pool.refs, Select(Kept, manifest), old(host.refs))
                            && NoStale(old(pool.temps), Select(Kept, manifest), old(host.refs)))
    {
      r := pool.PushManifest(host, manifest, s);
      if r.Ok? {
        PushLandedIn(world, host.refs);
        meta := meta.(state := CloseComplete(meta.state).value);
      } else {
        PushFailedIn(world, Describe(r.error));
        meta := meta.(state := CloseFailed(meta.state).value, lastCloseFailure := Some(Describe(r.error)));
      }
      world := PushedWorld(world, r.Ok?, host.refs, meta);
    }

    /**
      Pushes the manifest between two writes of the metadata. Refused outside open and failed-to-close. A success means
      closed on disk and the whole manifest landed; a refused push means the host is untouched and the reason is stored;
      an error in writing leaves what was on disk, or closing. The handle stays good unless writing failed.
    */
    method Close(manifest: seq<ManifestEntry>, s: Surroundings, first: WriteFault, second: WriteFault)
      returns (r: Result<(), SessionError>)
      requires Attached()
      modifies this, host, pool`temps
      ensures Follows() && world.pc.Idle?
      ensures r == Err(Transition(old(meta).state)) <==> !(old(meta).state in {Open, FailedToClose})
      ensures r.Ok? || !r.error.Io? ==> Attached()
      ensures r.Err? && r.error.Transition? ==>
                onDisk == old(onDisk) && host.refs == old(host.refs) && meta == old(meta)
      ensures r.Ok? ==>
                && StateOf(world.disk) == Some(Closed)
                && Landed(pool.refs, Select(Kept, manifest), old(host.refs), host.refs)
                && ManifestLanded(pool.refs, manifest, old(host.refs), host.refs)
                && onDisk == Some(old(meta).(state := Closed, lastCloseFailure := None))
      ensures r.Ok? || r.error.Transition? || r.error.PoolFailed? || r.error.Io?
      ensures r.Err? && r.error.PoolFailed?
              ==> host.refs == old(host.refs) && StateOf(world.disk) == Some(FailedToClose)
                  && var reason := Some(Describe(r.error.error));
                     onDisk == Some(old(meta).(state := FailedToClose, lastCloseFailure := reason))
      ensures r == Err(Io) ==> onDisk == old(onDisk) || StateOf(world.disk) == Some(Closing)
      ensures old(meta).state in {Open, FailedToClose} && first.NoFault? && second.NoFault? && Quiet(s, old(host.refs))
              ==> (r.Ok? <==> Pushable(pool.refs, Select(Kept, manifest), old(host.refs))
                              && NoStale(old(pool.temps), Select(Kept, manifest), old(host.refs)))
    {
      if CloseStart(meta.state).None? {
        return Err(Transition(meta.state));
      }
      var started := StartClosing(manifest, first);
      if !started {
        return Err(Io);
      }
      var pushed := PushAndSettle(manifest, s);
      var ended := WriteMetaAtomic(second);
      if !ended {
        return Err(Io);
      }
      return if pushed.Ok? then Ok(()) else Err(PoolFailed(pushed.error));
    }

    /** Takes in a run's output; only a session that may still be closed accepts runs. */
    method Run(output: RunOutput, landed: set<nat>, fails: bool) returns (r: Result<(), SessionError>)
      requires Attached()
      modifies this`runs, this`world, pool`refs
      ensures Attached() && meta == old(meta)
      ensures r == Err(Transition(old(meta).state)) <==> !(old(meta).state in {Open, FailedToClose})
      ensures r.Err? && r.error.Transition? ==> pool.refs == old(pool.refs)
      ensures r.Ok? <==>
                && old(meta).state in {Open, FailedToClose} && TargetsFree(old(pool.refs), output.runId, output.branch)
                && !fails && 0 in landed && (output.branch.Some? ==> 1 in landed)
      ensures r.Ok? ==> HoldsOutput(pool.refs, output)
      ensures forall n :: n in pool.refs && n !in old(pool.refs) ==>
                (n == AuditName(output.runId) || output.branch == Some(n)) && pool.refs[n] == output.head
      ensures forall n :: n in old(pool.refs) ==> n in pool.refs && pool.refs[n] == old(pool.refs)[n]
    {
      if AcceptNewRun(meta.state).None? {
        return Err(Transition(meta.state));
      }
      runs := true;
      RunsWhole(world, meta, output, landed);
      var taken := pool.AcceptRunOutput(output.runId, output.branch, output.head, landed, fails);
      world := world.(disk := DiskNow());
      return if taken.Ok? then Ok(()) else Err(PoolFailed(taken.error));
    }

    /**
      Removes pool and runs and then writes the tombstone; stopping in between leaves the old metadata over a damaged
      or missing pool.
    */
    method Discard(time: string, wipeStops: Option<WipeFault>, runsFail: bool, fault: WriteFault)
      returns (r: Result<(), SessionError>)
      requires Attached()
      modifies this, pool`refs
      ensures Follows() && world.pc.Idle?
      ensures r == Err(Transition(old(meta).state)) <==> !(old(meta).state in {Open, FailedToClose})
      ensures r.Ok? <==> old(meta).state in {Open, FailedToClose} && wipeStops.None? && !runsFail && fault.NoFault?
      ensures r.Ok? ==>
                && poolDir.Removed? && !runs
                && onDisk == Some(old(meta).(state := Discarded, discardedAt := Some(time)))
      ensures r.Err? ==> onDisk == old(onDisk)
      ensures r.Err? && r.error.Transition? ==> Attached() && meta == old(meta) && poolDir == old(poolDir)
      ensures r.Ok? || r.error.Transition? ==> pool.refs == old(pool.refs)
    {
      if DiscardStart(meta.state).None? {
        return Err(Transition(meta.state));
      }
      DiscardBegins(world, meta, time);
      ghost var tombstone := meta.(state := Discarded, discardedAt := Some(time));
      ghost var wiping := world.(pc := Wiping(tombstone));
      if wipeStops.Some? {
        var stop := wipeStops.value;
        poolDir, pool.refs := Damaged(stop.head), stop.left;
        WipeStops(wiping, stop.head, stop.left);
        world := world.(disk := DiskNow());
        return Err(Io);
      }
      poolDir := Removed;
      WipeEnds(wiping);
      if runsFail {
        world := world.(disk := DiskNow());
        return Err(Io);
      }
      runs := false;
      meta := meta.(state := DiscardStart(meta.state).value, discardedAt := Some(time));
      world := world.(disk := DiskNow(), pc := WriteTmp(meta, Finish));
      var ok := WriteMetaAtomic(fault);
      return if ok then Ok(()) else Err(Io);
    }
  }
}

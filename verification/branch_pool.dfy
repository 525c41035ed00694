/**
  The branch pool: the refs bunsen keeps for a session, the verbs that write them, and the one verb that
  pushes to the host. The host may move between the steps of a verb, and any git call may fail.
*/
module BranchPools {
  import opened GitRefs
  import opened Sequences
  import opened Wrappers

  const RESERVED_HOST := "host/"
  const RESERVED_RUNS := "runs/"

  /** `Git` covers git exiting with an error and git that could not be started. */
  datatype PoolError =
    | Git
    | ReservedNamespace(name: Name)
    | RefAlreadyExists(name: Name)
    | NotFastForward(poolRef: Name, hostRef: Name)

  datatype ManifestEntry = ManifestEntry(poolRef: Name, hostRef: Name, force: bool)

  datatype Resolved = Resolved(poolRef: Name, hostRef: Name, poolSha: Commit, hostSha: Option<Commit>, force: bool)

  /**
    What the outside does during one call: the host as seen when each entry is listed and fetched, and which git calls
    fail. A fetch that fails may have written its update all the same. The ancestor check may fail to start, or exit
    with an error of its own, which the code cannot tell from a "no".
  */
  datatype Surroundings = Surroundings(
    listed: nat -> Refs, fetched: nat -> Refs,
    listFails: nat -> bool, fetchFails: nat -> bool, fetchWrites: nat -> bool,
    checkFails: nat -> bool, checkExits: nat -> bool, deleteFails: nat -> bool, pushFails: bool)

  predicate InHost(n: Name) { RESERVED_HOST <= n.text }

  predicate InRuns(n: Name) { RESERVED_RUNS <= n.text }

  function HostName(branch: string): Name { Name(RESERVED_HOST + branch) }

  function AuditName(runId: string): Name { Name(RESERVED_RUNS + runId) }

  /** The names below `prefix`. */
  ghost predicate Below(prefix: string, n: Name) {
    exists rest: string :: n.text == prefix + rest
  }

  /**
    Reserved are exactly the names below `host/` and `runs/`; a mirrored branch and an audit ref each has its place
    there.
  */
  lemma ReservedNames(n: Name)
    ensures InHost(n) <==> Below("host/", n)
    ensures InRuns(n) <==> Below("runs/", n)
  {
    if InHost(n) {
      assert n.text == "host/" + n.text[5..];
    }
    if InRuns(n) {
      assert n.text == "runs/" + n.text[5..];
    }
  }

  lemma ReservedPlaces(s: string)
    ensures HostName(s).text == "host/" + s && AuditName(s).text == "runs/" + s
  {
  }

  // ---------- Deciding ----------

  /** The rule for one pair: forced, new on the host, or a fast-forward. */
  predicate MayPush(e: Resolved) {
    e.force || e.hostSha.None? || IsAncestor(e.hostSha.value, e.poolSha)
  }

  /** `Ok` when every pair may be pushed, else an error that names the first that may not. */
  ghost predicate Judges(entries: seq<Resolved>, r: Result<(), PoolError>) {
    match r
    case Ok(_) => forall i :: 0 <= i < |entries| ==> MayPush(entries[i])
    case Err(NotFastForward(p, h)) =>
      exists i ::
        && 0 <= i < |entries| && !MayPush(entries[i]) && p == entries[i].poolRef && h == entries[i].hostRef
        && forall j :: 0 <= j < i ==> MayPush(entries[j])
    case Err(_) => false
  }

  method ValidateResolvedManifest(entries: seq<Resolved>) returns (r: Result<(), PoolError>)
    ensures Judges(entries, r)
  {
    for i := 0 to |entries|
      invariant forall j :: 0 <= j < i ==> MayPush(entries[j])
    {
      var e := entries[i];
      if e.force || e.hostSha.None? {
        continue;
      }
      if !IsAncestor(e.hostSha.value, e.poolSha) {
        return Err(NotFastForward(e.poolRef, e.hostRef));
      }
    }
    return Ok(());
  }

  function Kept(e: ManifestEntry): Option<ManifestEntry> {
    if InRuns(e.poolRef) then None else Some(e)
  }

  function View(refs: Refs, n: Name): Option<Commit> {
    if n in refs then Some(refs[n]) else None
  }

  /** Entry `i` resolved against the pool and the host as listed for it. */
  ghost predicate ResolvesTo(pool: Refs, s: Surroundings, e: ManifestEntry, i: nat, r: Resolved) {
    e.poolRef in pool && r == Resolved(e.poolRef, e.hostRef, pool[e.poolRef], View(s.listed(i), e.hostRef), e.force)
  }

  function SpecsOf(pool: Refs, kept: seq<ManifestEntry>): seq<PushSpec>
    requires forall i :: 0 <= i < |kept| ==> kept[i].poolRef in pool
  {
    seq(|kept|, i requires 0 <= i < |kept| => PushSpec(kept[i].hostRef, pool[kept[i].poolRef], kept[i].force))
  }

  predicate AllInPool(pool: Refs, kept: seq<ManifestEntry>) {
    forall i :: 0 <= i < |kept| ==> kept[i].poolRef in pool
  }

  /** Nothing fails and the host stands still at `host`. */
  ghost predicate Quiet(s: Surroundings, host: Refs) {
    !s.pushFails
    && forall i: nat ::
         && s.listed(i) == host && s.fetched(i) == host
         && !s.listFails(i) && !s.fetchFails(i) && !s.checkFails(i) && !s.checkExits(i)
  }

  // ---------- The temporary refs ----------

  type Temps = map<nat, Commit>

  /** Entry `i`'s temporary ref is left over from an earlier call and the fetch, made without force, cannot move it. */
  predicate Stale(temps: Temps, i: nat, hostRef: Name, host: Refs) {
    hostRef in host && i in temps && !IsAncestor(temps[i], host[hostRef])
  }

  predicate NoStaleBelow(temps: Temps, kept: seq<ManifestEntry>, host: Refs, n: nat)
    requires n <= |kept|
  {
    forall i :: 0 <= i < n ==> !Stale(temps, i, kept[i].hostRef, host)
  }

  predicate NoStale(temps: Temps, kept: seq<ManifestEntry>, host: Refs) {
    NoStaleBelow(temps, kept, host, |kept|)
  }

  predicate SameAt(before: Temps, after: Temps, t: nat) {
    (t in before <==> t in after) && (t in before ==> after[t] == before[t])
  }

  predicate Listed(kept: seq<ManifestEntry>, s: Surroundings, t: nat) {
    t < |kept| && kept[t].hostRef in s.listed(t)
  }

  ghost predicate SameFrom(before: Temps, after: Temps, i: nat) {
    forall t: nat :: t >= i ==> SameAt(before, after, t)
  }

  lemma SameFromNext(before: Temps, mid: Temps, after: Temps, i: nat)
    requires SameFrom(before, mid, i) && forall t: nat :: t != i ==> SameAt(mid, after, t)
    ensures SameFrom(before, after, i + 1)
  {
    forall t: nat | t >= i + 1 ensures SameAt(before, after, t) {
      assert SameAt(before, mid, t) && SameAt(mid, after, t);
    }
  }

  /** Temporary ref `t` holds the host's tip as fetched for entry `t`. */
  predicate Took(kept: seq<ManifestEntry>, s: Surroundings, t: nat, temps: Temps) {
    Listed(kept, s, t) && t in temps && kept[t].hostRef in s.fetched(t) && temps[t] == s.fetched(t)[kept[t].hostRef]
  }

  /** The fetch for entry `t` failed and still wrote, so that nobody notes its temporary ref. */
  predicate Leaks(s: Surroundings, t: nat) {
    s.fetchFails(t) && s.fetchWrites(t)
  }

  /** Every temporary ref is as before, or was taken and noted, or leaked; a stale one is as before and not noted. */
  ghost predicate TempsTaken(before: Temps, after: Temps, kept: seq<ManifestEntry>, s: Surroundings,
                             tempRefs: seq<nat>) {
    && (forall t: nat :: SameAt(before, after, t) || (Took(kept, s, t, after) && (t in tempRefs || Leaks(s, t))))
    && (forall t :: t in tempRefs ==> Took(kept, s, t, after) && !Stale(before, t, kept[t].hostRef, s.fetched(t)))
    && (forall t: nat :: t < |kept| && Stale(before, t, kept[t].hostRef, s.fetched(t)) ==> SameAt(before, after, t))
  }

  /** Of the first `n` entries those the host has are noted, and no fetch failed for them. */
  ghost predicate AllNoted(kept: seq<ManifestEntry>, s: Surroundings, tempRefs: seq<nat>, n: nat) {
    forall t: nat :: (t in tempRefs <==> t < n && Listed(kept, s, t)) && (t < n && Listed(kept, s, t) ==> !Leaks(s, t))
  }

  /**
    After a call: a temporary ref is as before, or was taken and could not be deleted, or leaked; a stale one stays.
  */
  ghost predicate TempsLeft(before: Temps, after: Temps, kept: seq<ManifestEntry>, s: Surroundings) {
    && (forall t :: t in after
          ==> SameAt(before, after, t) || (Took(kept, s, t, after) && (s.deleteFails(t) || Leaks(s, t))))
    && (forall t: nat :: t < |kept| && Stale(before, t, kept[t].hostRef, s.fetched(t)) ==> SameAt(before, after, t))
  }

  /** After a success: of the temporary refs taken exactly those that could not be deleted are left. */
  ghost predicate OnlyUndeleted(before: Temps, after: Temps, kept: seq<ManifestEntry>, s: Surroundings) {
    forall t: nat ::
      if Listed(kept, s, t) then (t in after <==> s.deleteFails(t)) && (t in after ==> Took(kept, s, t, after))
      else SameAt(before, after, t)
  }

  /**
    What resolving entry `i` does to the temporary refs: nothing, or its own is written, and noted unless it leaked.
  */
  predicate EntryTook(before: Temps, after: Temps, e: ManifestEntry, i: nat, s: Surroundings, took: bool) {
    if after == before && !took then true
    else
      && e.hostRef in s.listed(i) && e.hostRef in s.fetched(i) && !Stale(before, i, e.hostRef, s.fetched(i))
      && after == before[i := s.fetched(i)[e.hostRef]] && (took || Leaks(s, i))
  }

  lemma TakenOneMore(before: Temps, mid: Temps, after: Temps, kept: seq<ManifestEntry>, s: Surroundings,
                     tempRefs: seq<nat>, i: nat, took: bool)
    requires TempsTaken(before, mid, kept, s, tempRefs) && i !in tempRefs && i < |kept|
    requires SameAt(before, mid, i) && EntryTook(mid, after, kept[i], i, s, took)
    ensures TempsTaken(before, after, kept, s, if took then tempRefs + [i] else tempRefs)
    ensures forall t: nat :: t != i ==> SameAt(mid, after, t)
  {
    forall t: nat
      ensures SameAt(before, after, t)
              || (Took(kept, s, t, after) && ((t == i && took) || t in tempRefs || Leaks(s, t)))
    {
      assert SameAt(before, mid, t) || Took(kept, s, t, mid);
      assert t != i ==> SameAt(mid, after, t);
    }
    forall t: nat | t < |kept| && Stale(before, t, kept[t].hostRef, s.fetched(t))
      ensures SameAt(before, after, t)
    {
      assert SameAt(before, mid, t);
      assert t != i ==> SameAt(mid, after, t);
    }
    forall t | t in tempRefs
      ensures Took(kept, s, t, after)
    {
      assert SameAt(mid, after, t);
    }
  }

  lemma DroppedTemps(before: Temps, taken: Temps, after: Temps, kept: seq<ManifestEntry>, s: Surroundings,
                     tempRefs: seq<nat>)
    requires TempsTaken(before, taken, kept, s, tempRefs)
    requires forall t: nat :: if t in tempRefs && !s.deleteFails(t) then t !in after else SameAt(taken, after, t)
    ensures TempsLeft(before, after, kept, s)
    ensures AllNoted(kept, s, tempRefs, |kept|) ==> OnlyUndeleted(before, after, kept, s)
  {
  }

  /** On a host that stands still a stale temporary ref stays stale. */
  lemma StaleStays(before: Temps, after: Temps, kept: seq<ManifestEntry>, s: Surroundings, host: Refs)
    requires TempsLeft(before, after, kept, s) && Quiet(s, host)
    ensures !NoStale(before, kept, host) ==> !NoStale(after, kept, host)
  {
    if !NoStale(before, kept, host) {
      var i :| 0 <= i < |kept| && Stale(before, i, kept[i].hostRef, host);
      assert Stale(before, i, kept[i].hostRef, s.fetched(i)) && SameAt(before, after, i);
      assert Stale(after, i, kept[i].hostRef, host);
    }
  }

  // ---------- What the writing verbs do ----------

  datatype RunOutput = Output(runId: string, branch: Option<Name>, head: Commit)

  function FirstOf(n: nat): (all: set<nat>)
    ensures forall i: nat :: i in all <==> i < n
  {
    if n == 0 then {} else FirstOf(n - 1) + {n - 1}
  }

  /** The updates for the branches the host has; with one missing git refuses the whole fetch before writing. */
  function MirrorUpdates(hostRefs: Refs, branches: seq<string>): seq<Update> {
    if forall i :: 0 <= i < |branches| ==> Name(branches[i]) in hostRefs then
      seq(|branches|, i requires 0 <= i < |branches| => Update(HostName(branches[i]), hostRefs[Name(branches[i])]))
    else []
  }

  lemma MirrorUpdatesComplete(hostRefs: Refs, branches: seq<string>)
    requires branches != []
    ensures |MirrorUpdates(hostRefs, branches)| == |branches|
            <==> forall i :: 0 <= i < |branches| ==> Name(branches[i]) in hostRefs
  {
  }

  /** A forced fetch of which the updates in `landed` were carried out. */
  function Mirrored(refs: Refs, updates: seq<Update>, landed: set<nat>): Refs
    decreases |updates|
  {
    if updates == [] then refs
    else
      var n := |updates| - 1;
      var before := Mirrored(refs, updates[..n], landed);
      if n in landed then before[updates[n].name := updates[n].commit] else before
  }

  lemma {:induction false} MirroredPrefix(refs: Refs, hostRefs: Refs, branches: seq<string>, landed: set<nat>)
    requires forall i :: 0 <= i < |branches| ==> i in landed && Name(branches[i]) in hostRefs
    ensures MirrorsInto(refs, Mirrored(refs, MirrorUpdates(hostRefs, branches), landed), hostRefs, branches)
    decreases |branches|
  {
    if branches != [] {
      var n := |branches| - 1;
      assert MirrorUpdates(hostRefs, branches[..n]) == MirrorUpdates(hostRefs, branches)[..n];
      MirroredPrefix(refs, hostRefs, branches[..n], landed);
      forall i | 0 <= i < n && HostName(branches[i]) == HostName(branches[n])
        ensures branches[i] == branches[n]
      {
        assert HostName(branches[i]).text[5..] == branches[i] && HostName(branches[n]).text[5..] == branches[n];
      }
      assert forall i :: 0 <= i < n ==> branches[..n][i] == branches[i];
    }
  }

  /** `after` is `before` with the host's tip of each branch at its `host/` name, and otherwise unchanged. */
  ghost predicate MirrorsInto(before: Refs, after: Refs, hostRefs: Refs, branches: seq<string>) {
    && (forall i :: 0 <= i < |branches| ==> View(after, HostName(branches[i])) == View(hostRefs, Name(branches[i])))
    && (forall n :: (forall i :: 0 <= i < |branches| ==> HostName(branches[i]) != n)
          ==> View(after, n) == View(before, n))
  }

  predicate TargetsFree(refs: Refs, runId: string, branch: Option<Name>) {
    AuditName(runId) !in refs
      && (branch.Some? ==> !InHost(branch.value) && !InRuns(branch.value) && branch.value !in refs)
  }

  function OutputUpdates(o: RunOutput): seq<Update> {
    [Update(AuditName(o.runId), o.head)] + if o.branch.Some? then [Update(o.branch.value, o.head)] else []
  }

  function AcceptedInto(refs: Refs, o: RunOutput, landed: set<nat>): Refs {
    if TargetsFree(refs, o.runId, o.branch) then Fetched(refs, OutputUpdates(o), landed) else refs
  }

  predicate HoldsOutput(refs: Refs, o: RunOutput) {
    && AuditName(o.runId) in refs && refs[AuditName(o.runId)] == o.head
    && (o.branch.Some? ==> o.branch.value in refs && refs[o.branch.value] == o.head)
  }

  lemma AcceptWrites(refs: Refs, o: RunOutput, landed: set<nat>)
    requires TargetsFree(refs, o.runId, o.branch)
    ensures var after := Fetched(refs, OutputUpdates(o), landed);
            && (forall n :: n in refs ==> n in after && after[n] == refs[n])
            && (forall n :: n in after && n !in refs ==>
                  (n == AuditName(o.runId) || o.branch == Some(n)) && after[n] == o.head)
            && (FetchSucceeds(refs, OutputUpdates(o), landed) <==> 0 in landed && (o.branch.Some? ==> 1 in landed))
            && (FetchSucceeds(refs, OutputUpdates(o), landed) ==> HoldsOutput(after, o))
  {
    var audit := Update(AuditName(o.runId), o.head);
    assert [audit][..0] == [] && Fetched(refs, [], landed) == refs;
    assert Fetched(refs, [audit], landed) == if 0 in landed then refs[audit.name := o.head] else refs;
    if o.branch.Some? {
      var both := [audit, Update(o.branch.value, o.head)];
      assert OutputUpdates(o) == both && both[..1] == [audit];
      assert InRuns(AuditName(o.runId)) && o.branch.value != AuditName(o.runId);
    } else {
      assert OutputUpdates(o) == [audit];
    }
  }

  class BranchPool {
    var refs: Refs
    /** The refs below `refs/bunsen-validate/`, by entry number. */
    var temps: Temps

    constructor ()
      ensures refs == map[] && temps == map[]
    {
      refs, temps := map[], map[];
    }

    // ---------- Writing into the pool ----------

    /** Copies host branches to `host/` names, overwriting them; nothing outside `host/` is touched, failing or not. */
    method MirrorFromHost(hostRefs: Refs, branches: seq<string>, landed: set<nat>, fails: bool) returns (ok: bool)
      modifies this`refs
      ensures refs == Mirrored(old(refs), MirrorUpdates(hostRefs, branches), if ok then FirstOf(|branches|) else landed)
      ensures ok ==> MirrorsInto(old(refs), refs, hostRefs, branches)
      ensures ok <==> branches == [] || (!fails && forall i :: 0 <= i < |branches| ==> Name(branches[i]) in hostRefs)
    {
      if branches == [] {
        return true;
      }
      var updates := MirrorUpdates(hostRefs, branches);
      ok := !fails && |updates| == |branches|;
      MirrorUpdatesComplete(hostRefs, branches);
      if ok {
        MirroredPrefix(refs, hostRefs, branches, FirstOf(|branches|));
      }
      refs := Mirrored(refs, updates, if ok then FirstOf(|branches|) else landed);
    }

    /** Refuses reserved names and names already taken, the output branch first. */
    method ValidateRunOutputTargets(runId: string, outputBranch: Option<Name>) returns (r: Result<(), PoolError>)
      ensures r.Ok? <==> TargetsFree(refs, runId, outputBranch)
      ensures r.Ok? <==>
                && Name("runs/" + runId) !in refs
                && (outputBranch.Some? ==>
                      && !Below("host/", outputBranch.value) && !Below("runs/", outputBranch.value)
                      && outputBranch.value !in refs)
      ensures r.Err? ==>
                || r.error == RefAlreadyExists(AuditName(runId))
                || (outputBranch.Some?
                    && r.error in {ReservedNamespace(outputBranch.value), RefAlreadyExists(outputBranch.value)})
    {
      if outputBranch.Some? {
        var name := outputBranch.value;
        ReservedNames(name);
        if InHost(name) || InRuns(name) {
          return Err(ReservedNamespace(name));
        }
        if name in refs {
          return Err(RefAlreadyExists(name));
        }
      }
      var audit := AuditName(runId);
      if audit in refs {
        return Err(RefAlreadyExists(audit));
      }
      return Ok(());
    }

    /**
      Writes the audit ref and, if asked for, the output branch, both at `head`. Nothing that was there changes;
      success means both are there. Both ways of taking in a run's output come down to this.
    */
    method AcceptRunOutput(runId: string, outputBranch: Option<Name>, head: Commit, landed: set<nat>, fails: bool)
      returns (r: Result<(), PoolError>)
      modifies this`refs
      ensures refs == AcceptedInto(old(refs), Output(runId, outputBranch, head), landed)
      ensures r.Ok? <==>
                && !fails && TargetsFree(old(refs), runId, outputBranch)
                && 0 in landed && (outputBranch.Some? ==> 1 in landed)
      ensures forall n :: n in old(refs) ==> n in refs && refs[n] == old(refs)[n]
      ensures forall n :: n in refs && n !in old(refs) ==>
                (n == AuditName(runId) || outputBranch == Some(n)) && refs[n] == head
      ensures r.Ok? ==> HoldsOutput(refs, Output(runId, outputBranch, head))
    {
      var validation := ValidateRunOutputTargets(runId, outputBranch);
      if validation.Err? {
        return validation;
      }
      var updates := [Update(AuditName(runId), head)];
      if outputBranch.Some? {
        updates := updates + [Update(outputBranch.value, head)];
      }
      AcceptWrites(refs, Output(runId, outputBranch, head), landed);
      var ok := !fails && FetchSucceeds(refs, updates, landed);
      refs := Fetched(refs, updates, landed);
      return if ok then Ok(()) else Err(Git);
    }

    // ---------- Push ----------

    /** Resolves one pair. The host's tip is fetched without force; what a failing fetch wrote is not noted. */
    method ResolveEntry(e: ManifestEntry, i: nat, s: Surroundings)
      returns (r: Result<Resolved, PoolError>, tookTemp: bool)
      modifies this`temps
      ensures r.Ok? ==> ResolvesTo(refs, s, e, i, r.value) && (!Leaks(s, i) || e.hostRef !in s.listed(i))
      ensures r.Err? ==> r.error == Git && !tookTemp
      ensures Quiet(s, s.listed(i)) ==> (r.Ok? <==> e.poolRef in refs && !Stale(old(temps), i, e.hostRef, s.listed(i)))
      ensures tookTemp ==> e.hostRef in s.listed(i)
      ensures r.Ok? && e.hostRef in s.listed(i) ==> tookTemp
      ensures EntryTook(old(temps), temps, e, i, s, tookTemp)
    {
      tookTemp := false;
      if e.poolRef !in refs {
        return Err(Git), false;
      }
      var poolSha := refs[e.poolRef];
      if s.listFails(i) {
        return Err(Git), false;
      }
      var hostSha := View(s.listed(i), e.hostRef);
      if hostSha.Some? {
        if e.hostRef !in s.fetched(i) || Stale(temps, i, e.hostRef, s.fetched(i)) {
          return Err(Git), false;
        }
        if !s.fetchFails(i) || s.fetchWrites(i) {
          temps := temps[i := s.fetched(i)[e.hostRef]];
        }
        if s.fetchFails(i) {
          return Err(Git), false;
        }
        tookTemp := true;
      }
      r := Ok(Resolved(e.poolRef, e.hostRef, poolSha, hostSha, e.force));
    }

    /** Resolves every pair, noting the temporary refs taken. */
    method ResolveAll(kept: seq<ManifestEntry>, s: Surroundings)
      returns (r: Result<seq<Resolved>, PoolError>, tempRefs: seq<nat>)
      modifies this`temps
      ensures TempsTaken(old(temps), temps, kept, s, tempRefs)
      ensures r.Ok? ==>
                |r.value| == |kept| && forall j :: 0 <= j < |kept| ==> ResolvesTo(refs, s, kept[j], j, r.value[j])
      ensures r.Ok? ==> AllNoted(kept, s, tempRefs, |kept|)
      ensures r.Err? ==> r.error == Git
      ensures forall host :: Quiet(s, host) ==> (r.Ok? <==> AllInPool(refs, kept) && NoStale(old(temps), kept, host))
    {
      tempRefs := [];
      var resolved: seq<Resolved> := [];
      for i := 0 to |kept|
        invariant |resolved| == i && TempsTaken(old(temps), temps, kept, s, tempRefs)
        invariant SameFrom(old(temps), temps, i)
        invariant forall j :: 0 <= j < i ==> ResolvesTo(refs, s, kept[j], j, resolved[j])
        invariant AllNoted(kept, s, tempRefs, i)
        invariant forall host :: Quiet(s, host) ==> NoStaleBelow(old(temps), kept, host, i)
      {
        ghost var before := temps;
        var one, tookTemp := ResolveEntry(kept[i], i, s);
        TakenOneMore(old(temps), before, temps, kept, s, tempRefs, i, tookTemp);
        SameFromNext(old(temps), before, temps, i);
        if tookTemp {
          tempRefs := tempRefs + [i];
        }
        if one.Err? {
          return Err(one.error), tempRefs;
        }
        resolved := resolved + [one.value];
      }
      return Ok(resolved), tempRefs;
    }

    /** Resolves every pair and then decides. */
    method ValidateManifest(kept: seq<ManifestEntry>, s: Surroundings)
      returns (r: Result<(), PoolError>, tempRefs: seq<nat>)
      modifies this`temps
      ensures TempsTaken(old(temps), temps, kept, s, tempRefs)
      ensures r.Ok? ==> AllNoted(kept, s, tempRefs, |kept|)
      ensures r.Ok? ==> AllInPool(refs, kept) && AllMay(refs, kept, s)
      ensures r.Err? && r.error != Git ==> AllInPool(refs, kept) && FirstRefused(refs, kept, s, r.error)
      ensures forall host :: Quiet(s, host) ==>
                (r.Ok? <==> AllInPool(refs, kept) && AllMayAgainst(refs, kept, host) && NoStale(old(temps), kept, host))
    {
      var all;
      all, tempRefs := ResolveAll(kept, s);
      if all.Err? {
        return Err(all.error), tempRefs;
      }
      var resolved := all.value;
      assert AllInPool(refs, kept) by {
        assert forall j :: 0 <= j < |kept| ==> ResolvesTo(refs, s, kept[j], j, resolved[j]);
      }
      for i := 0 to |kept|
        invariant forall j :: 0 <= j < i ==> MayPushEntry(refs, kept[j], s, j)
      {
        var e := resolved[i];
        assert ResolvesTo(refs, s, kept[i], i, e);
        if e.force || e.hostSha.None? {
          continue;
        }
        if s.checkFails(i) {
          return Err(Git), tempRefs;
        }
        if s.checkExits(i) || !IsAncestor(e.hostSha.value, e.poolSha) {
          return Err(NotFastForward(e.poolRef, e.hostRef)), tempRefs;
        }
      }
      return Ok(()), tempRefs;
    }

    /** Deletes the temporary refs; a deletion that fails is ignored. */
    method DropTemps(tempRefs: seq<nat>, s: Surroundings)
      modifies this`temps
      ensures forall t: nat :: if t in tempRefs && !s.deleteFails(t) then t !in temps else SameAt(old(temps), temps, t)
    {
      for i := 0 to |tempRefs|
        invariant forall t: nat :: if t in tempRefs[..i] && !s.deleteFails(t) then t !in temps
                  else SameAt(old(temps), temps, t)
      {
        if !s.deleteFails(tempRefs[i]) {
          temps := temps - {tempRefs[i]};
        }
      }
    }

    /**
      Pushes the manifest, audit refs left out: all of it or nothing. `host.refs` is the host when the push arrives.
      An error leaves the host as it was. Without failures and with a host that stands still it succeeds exactly
      when every pool ref exists, targets are distinct, every pair is forced or a fast-forward, and no temporary ref
      that an earlier call left behind is in the way; one that is stays there.
    */
    method PushManifest(host: HostRepo, manifest: seq<ManifestEntry>, s: Surroundings)
      returns (r: Result<(), PoolError>)
      modifies this`temps, host
      ensures r.Err? ==> host.refs == old(host.refs)
      ensures r.Ok? ==> Landed(refs, Select(Kept, manifest), old(host.refs), host.refs)
      ensures r.Ok? ==> ManifestLanded(refs, manifest, old(host.refs), host.refs)
      ensures r.Err? && r.error != Git
              ==> AllInPool(refs, Select(Kept, manifest)) && FirstRefused(refs, Select(Kept, manifest), s, r.error)
      ensures Quiet(s, old(host.refs)) ==>
                (r.Ok? <==> Pushable(refs, Select(Kept, manifest), old(host.refs))
                            && NoStale(old(temps), Select(Kept, manifest), old(host.refs)))
      ensures Quiet(s, old(host.refs)) && !NoStale(old(temps), Select(Kept, manifest), old(host.refs))
              ==> !NoStale(temps, Select(Kept, manifest), old(host.refs))
      ensures TempsLeft(old(temps), temps, Select(Kept, manifest), s)
      ensures r.Ok? ==> OnlyUndeleted(old(temps), temps, Select(Kept, manifest), s)
    {
      var kept: seq<ManifestEntry> := [];
      for i := 0 to |manifest|
        invariant kept == Select(Kept, manifest[..i]) && host.refs == old(host.refs) && temps == old(temps)
      {
        SelectTake(Kept, manifest, i);
        if !InRuns(manifest[i].poolRef) {
          kept := kept + [manifest[i]];
        }
      }
      assert manifest[..|manifest|] == manifest;
      var validation, tempRefs := ValidateManifest(kept, s);
      ghost var taken := temps;
      DropTemps(tempRefs, s);
      DroppedTemps(old(temps), taken, temps, kept, s, tempRefs);
      if Quiet(s, old(host.refs)) {
        StaleStays(old(temps), temps, kept, s, old(host.refs));
      }
      if validation.Err? {
        return validation;
      }
      if kept == [] {
        NothingToPush(refs, kept, host.refs);
        LandedWholly(refs, manifest, host.refs, host.refs);
        return Ok(());
      }
      var specs := SpecsOf(refs, kept);
      var ok := host.PushAtomic(specs, s.pushFails);
      PushAcceptedExactlyWhen(refs, kept, old(host.refs));
      if !ok {
        return Err(Git);
      }
      KeptAreNotRuns(manifest);
      PushLands(refs, kept, old(host.refs));
      LandedWholly(refs, manifest, old(host.refs), host.refs);
      return Ok(());
    }
  }

  /** Whether `after` is `before` with exactly the kept pairs pushed. */
  ghost predicate Landed(pool: Refs, kept: seq<ManifestEntry>, before: Refs, after: Refs) {
    && (forall i :: 0 <= i < |kept| ==>
          && !InRuns(kept[i].poolRef)
          && kept[i].poolRef in pool && kept[i].hostRef in after && after[kept[i].hostRef] == pool[kept[i].poolRef]
          && (!kept[i].force && kept[i].hostRef in before ==>
                IsAncestor(before[kept[i].hostRef], after[kept[i].hostRef])))
    && (forall n :: (forall i :: 0 <= i < |kept| ==> kept[i].hostRef != n) ==>
          (n in after <==> n in before) && (n in before ==> after[n] == before[n]))
  }

  predicate DistinctHostRefs(kept: seq<ManifestEntry>) {
    forall i, j :: 0 <= i < j < |kept| ==> kept[i].hostRef != kept[j].hostRef
  }

  predicate Pushable(pool: Refs, kept: seq<ManifestEntry>, host: Refs) {
    AllInPool(pool, kept) && DistinctHostRefs(kept) && AllMayAgainst(pool, kept, host)
  }

  lemma NothingToPush(pool: Refs, kept: seq<ManifestEntry>, host: Refs)
    requires kept == []
    ensures Landed(pool, kept, host, host) && Pushable(pool, kept, host)
  {
  }

  lemma {:induction false} KeptAreNotRuns(manifest: seq<ManifestEntry>)
    ensures forall i :: 0 <= i < |Select(Kept, manifest)| ==> !InRuns(Select(Kept, manifest)[i].poolRef)
  {
    forall i | 0 <= i < |Select(Kept, manifest)|
      ensures !InRuns(Select(Kept, manifest)[i].poolRef)
    {
      SelectHas(Kept, manifest, Select(Kept, manifest)[i]);
    }
  }

  /** What is kept of a manifest: the entries whose pool ref is not below `runs/`. */
  lemma KeptExactly(manifest: seq<ManifestEntry>, e: ManifestEntry)
    ensures e in Select(Kept, manifest) <==> e in manifest && !Below("runs/", e.poolRef)
  {
    SelectHas(Kept, manifest, e);
    ReservedNames(e.poolRef);
    if e in manifest && !Below("runs/", e.poolRef) {
      var i :| 0 <= i < |manifest| && manifest[i] == e;
      assert Kept(manifest[i]) == Some(e);
    }
  }

  /**
    `after` is `before` with every entry of the manifest pushed whose pool ref is not below `runs/`, forward only
    unless forced; no other ref changed.
  */
  ghost predicate ManifestLanded(pool: Refs, manifest: seq<ManifestEntry>, before: Refs, after: Refs) {
    && (forall e :: e in manifest && !Below("runs/", e.poolRef) ==>
          && e.poolRef in pool && View(after, e.hostRef) == Some(pool[e.poolRef])
          && (!e.force && e.hostRef in before ==> IsAncestor(before[e.hostRef], pool[e.poolRef])))
    && (forall n :: (forall e :: e in manifest && !Below("runs/", e.poolRef) ==> e.hostRef != n) ==>
          View(after, n) == View(before, n))
  }

  lemma LandedWholly(pool: Refs, manifest: seq<ManifestEntry>, before: Refs, after: Refs)
    requires Landed(pool, Select(Kept, manifest), before, after)
    ensures ManifestLanded(pool, manifest, before, after)
  {
    forall e | e in manifest && !Below("runs/", e.poolRef)
      ensures e.poolRef in pool && View(after, e.hostRef) == Some(pool[e.poolRef])
      ensures !e.force && e.hostRef in before ==> IsAncestor(before[e.hostRef], pool[e.poolRef])
    {
      KeptExactly(manifest, e);
      EntryLanded(pool, Select(Kept, manifest), before, after, e);
    }
    forall n | forall e :: e in manifest && !Below("runs/", e.poolRef) ==> e.hostRef != n
      ensures View(after, n) == View(before, n)
    {
      forall i | 0 <= i < |Select(Kept, manifest)| ensures Select(Kept, manifest)[i].hostRef != n {
        KeptExactly(manifest, Select(Kept, manifest)[i]);
      }
    }
  }

  lemma EntryLanded(pool: Refs, kept: seq<ManifestEntry>, before: Refs, after: Refs, e: ManifestEntry)
    requires Landed(pool, kept, before, after) && e in kept
    ensures e.poolRef in pool && View(after, e.hostRef) == Some(pool[e.poolRef])
    ensures !e.force && e.hostRef in before ==> IsAncestor(before[e.hostRef], pool[e.poolRef])
  {
    var i :| 0 <= i < |kept| && kept[i] == e;
  }

  lemma PushAcceptedExactlyWhen(pool: Refs, kept: seq<ManifestEntry>, host: Refs)
    requires AllInPool(pool, kept)
    ensures PushAccepted(host, SpecsOf(pool, kept)) <==> DistinctHostRefs(kept) && AllMayAgainst(pool, kept, host)
  {
    var specs := SpecsOf(pool, kept);
    assert forall i :: 0 <= i < |kept| ==> specs[i] == PushSpec(kept[i].hostRef, pool[kept[i].poolRef], kept[i].force);
  }

  lemma PushLands(pool: Refs, kept: seq<ManifestEntry>, host: Refs)
    requires AllInPool(pool, kept) && DistinctHostRefs(kept) && AllMayAgainst(pool, kept, host)
    requires forall i :: 0 <= i < |kept| ==> !InRuns(kept[i].poolRef)
    ensures Landed(pool, kept, host, Pushed(host, SpecsOf(pool, kept)))
  {
    var specs := SpecsOf(pool, kept);
    assert forall i :: 0 <= i < |kept| ==> specs[i] == PushSpec(kept[i].hostRef, pool[kept[i].poolRef], kept[i].force);
    PushedIs(host, specs);
  }

  /** Entry `i` may be pushed over the host as it was listed for it. */
  ghost predicate MayPushEntry(pool: Refs, e: ManifestEntry, s: Surroundings, i: nat)
    requires e.poolRef in pool
  {
    e.force || IsFastForward(s.listed(i), e.hostRef, pool[e.poolRef])
  }

  ghost predicate AllMay(pool: Refs, kept: seq<ManifestEntry>, s: Surroundings)
    requires AllInPool(pool, kept)
  {
    forall i :: 0 <= i < |kept| ==> MayPushEntry(pool, kept[i], s, i)
  }

  predicate AllMayAgainst(pool: Refs, kept: seq<ManifestEntry>, host: Refs)
    requires AllInPool(pool, kept)
  {
    forall i :: 0 <= i < |kept| ==> kept[i].force || IsFastForward(host, kept[i].hostRef, pool[kept[i].poolRef])
  }

  /** `error` names the first pair that may not be pushed, or whose check exited with an error of its own. */
  ghost predicate FirstRefused(pool: Refs, kept: seq<ManifestEntry>, s: Surroundings, error: PoolError)
    requires AllInPool(pool, kept)
  {
    exists i ::
      && 0 <= i < |kept| && !kept[i].force && kept[i].hostRef in s.listed(i)
      && (s.checkExits(i) || !MayPushEntry(pool, kept[i], s, i))
      && error == NotFastForward(kept[i].poolRef, kept[i].hostRef)
      && forall j :: 0 <= j < i ==> MayPushEntry(pool, kept[j], s, j)
  }

  // ---------- A temporary ref in the way ----------

  function Still(host: Refs, undeleted: set<nat>): Surroundings {
    var never := (_: nat) => false;
    Surroundings(_ => host, _ => host, never, never, never, never, never, t => t in undeleted, false)
  }

  const MAIN := Name("main")
  const OUT := Name("out")
  const FORCED := ManifestEntry(OUT, MAIN, true)

  lemma ForcedIsPushable(refs: Refs, temps: Temps, host: Refs)
    requires OUT in refs
    ensures Select(Kept, [FORCED]) == [FORCED] && Pushable(refs, [FORCED], host)
    ensures NoStale(temps, [FORCED], host) <==> !Stale(temps, 0, MAIN, host)
  {
    assert FORCED.poolRef.text[0] == 'o' && RESERVED_RUNS[0] == 'r';
    assert [FORCED][1..] == [] && Select<ManifestEntry, ManifestEntry>(Kept, []) == [];
  }

  /** The temporary ref of the entry that a successful push could not delete holds the host's old tip. */
  lemma UndeletedTemp(before: Temps, after: Temps, host: Refs)
    requires MAIN in host && OnlyUndeleted(before, after, [FORCED], Still(host, {0}))
    ensures 0 in after && after[0] == host[MAIN]
  {
    assert Listed([FORCED], Still(host, {0}), 0);
  }

  /**
    One temporary ref that could not be deleted, and a host whose history was rewritten since: a forced push that every
    rule allows is refused on a still host without a failure, and so is every retry.
  */
  method StaleTempBlocksForcedPush(first: Commit, rewritten: Commit, tip: Commit)
      returns (pool: BranchPool, host: HostRepo, r: Result<(), PoolError>)
    requires !IsAncestor(first, rewritten)
    ensures Pushable(pool.refs, Select(Kept, [FORCED]), host.refs) && r == Err(Git)
    ensures !NoStale(pool.temps, Select(Kept, [FORCED]), host.refs)
  {
    pool := new BranchPool();
    pool.refs := map[OUT := tip];
    host := new HostRepo(map[MAIN := first]);
    ForcedIsPushable(pool.refs, pool.temps, host.refs);
    r := pool.PushManifest(host, [FORCED], Still(host.refs, {0}));
    UndeletedTemp(map[], pool.temps, map[MAIN := first]);
    host.refs := map[MAIN := rewritten];
    ForcedIsPushable(pool.refs, pool.temps, host.refs);
    r := pool.PushManifest(host, [FORCED], Still(host.refs, {}));
  }
}

/** Commits, refs and the git primitives the branch pool relies on. */
module GitRefs {

  /** A branch name below `refs/heads/`. */
  datatype Name = Name(text: string)

  datatype Commit = Commit(content: int, parents: seq<Commit>)

  type Refs = map<Name, Commit>

  predicate IsAncestor(a: Commit, c: Commit) {
    a == c || exists i :: 0 <= i < |c.parents| && IsAncestor(a, c.parents[i])
  }

  lemma {:induction false} AncestorsCompose(a: Commit, b: Commit, c: Commit)
    requires IsAncestor(a, b) && IsAncestor(b, c)
    ensures IsAncestor(a, c)
    decreases c
  {
    if b != c {
      var i :| 0 <= i < |c.parents| && IsAncestor(b, c.parents[i]);
      AncestorsCompose(a, b, c.parents[i]);
    }
  }

  /** Walking from `c` to `a`, each commit followed by one of its parents. */
  ghost predicate ParentPath(path: seq<Commit>, a: Commit, c: Commit) {
    && path != [] && path[0] == c && path[|path| - 1] == a
    && forall i :: 0 <= i < |path| - 1 ==> path[i + 1] in path[i].parents
  }

  lemma {:induction false} PathOf(a: Commit, c: Commit) returns (path: seq<Commit>)
    requires IsAncestor(a, c)
    ensures ParentPath(path, a, c)
    decreases c
  {
    path := [c];
    if a != c {
      var i :| 0 <= i < |c.parents| && IsAncestor(a, c.parents[i]);
      var rest := PathOf(a, c.parents[i]);
      path := [c] + rest;
      assert forall k :: 1 <= k < |path| ==> path[k] == rest[k - 1];
    }
  }

  lemma {:induction false} PathLeadsToAncestor(path: seq<Commit>, a: Commit, c: Commit)
    requires ParentPath(path, a, c)
    ensures IsAncestor(a, c)
    decreases |path|
  {
    if |path| > 1 {
      assert forall i :: 0 <= i < |path[1..]| ==> path[1..][i] == path[i + 1];
      PathLeadsToAncestor(path[1..], a, path[1]);
      var i :| 0 <= i < |c.parents| && c.parents[i] == path[1];
    }
  }

  /** A commit is an ancestor exactly when some walk from child to parent reaches it. */
  lemma AncestorExactlyWhen(a: Commit, c: Commit)
    ensures IsAncestor(a, c) <==> exists path :: ParentPath(path, a, c)
  {
    if IsAncestor(a, c) {
      var path := PathOf(a, c);
    }
    if path :| ParentPath(path, a, c) {
      PathLeadsToAncestor(path, a, c);
    }
  }

  /** Whether setting `name` to `c` creates it or moves it forward. */
  predicate IsFastForward(refs: Refs, name: Name, c: Commit) {
    name in refs ==> IsAncestor(refs[name], c)
  }

  // ---------- Fetch without force ----------

  datatype Update = Update(name: Name, commit: Commit)

  /**
    The refs after a fetch without force of which the updates in `landed` were carried out; those that are not
    fast-forwards never are.
  */
  function Fetched(refs: Refs, updates: seq<Update>, landed: set<nat>): Refs
    decreases |updates|
  {
    if updates == [] then refs
    else
      var n := |updates| - 1;
      var before := Fetched(refs, updates[..n], landed);
      var u := updates[n];
      if n in landed && IsFastForward(refs, u.name, u.commit) then before[u.name := u.commit] else before
  }

  predicate FetchSucceeds(refs: Refs, updates: seq<Update>, landed: set<nat>) {
    forall i :: 0 <= i < |updates| ==> i in landed && IsFastForward(refs, updates[i].name, updates[i].commit)
  }

  // ---------- Atomic push ----------

  datatype PushSpec = PushSpec(name: Name, commit: Commit, force: bool)

  predicate DistinctTargets(specs: seq<PushSpec>) {
    forall i, j :: 0 <= i < j < |specs| ==> specs[i].name != specs[j].name
  }

  predicate PushAccepted(refs: Refs, specs: seq<PushSpec>) {
    DistinctTargets(specs)
    && forall i :: 0 <= i < |specs| ==> specs[i].force || IsFastForward(refs, specs[i].name, specs[i].commit)
  }

  /** All of the specs carried out. */
  function Pushed(refs: Refs, specs: seq<PushSpec>): Refs
    decreases |specs|
  {
    if specs == [] then refs
    else
      var n := |specs| - 1;
      Pushed(refs, specs[..n])[specs[n].name := specs[n].commit]
  }

  class HostRepo {
    var refs: Refs

    constructor (refs: Refs)
      ensures this.refs == refs
    {
      this.refs := refs;
    }

    /** `git push --atomic`: everything or nothing; `fault` stands for any other reason to fail. */
    method PushAtomic(specs: seq<PushSpec>, fault: bool) returns (ok: bool)
      modifies this
      ensures ok <==> !fault && PushAccepted(old(refs), specs)
      ensures refs == if ok then Pushed(old(refs), specs) else old(refs)
    {
      ok := !fault;
      var next := refs;
      for i := 0 to |specs|
        invariant ok <==> !fault && PushAccepted(refs, specs[..i])
        invariant ok ==> next == Pushed(refs, specs[..i])
        invariant refs == old(refs)
      {
        var spec := specs[i];
        var repeated := exists j :: 0 <= j < i && specs[j].name == spec.name;
        assert specs[..i + 1][..i] == specs[..i] && specs[..i + 1][i] == spec;
        PushOneMore(refs, specs, i);
        if repeated || !(spec.force || IsFastForward(refs, spec.name, spec.commit)) {
          ok := false;
        }
        next := next[spec.name := spec.commit];
      }
      assert specs[..|specs|] == specs;
      if ok {
        refs := next;
      }
    }
  }

  lemma PushOneMore(refs: Refs, specs: seq<PushSpec>, i: nat)
    requires i < |specs|
    ensures PushAccepted(refs, specs[..i + 1])
            <==> PushAccepted(refs, specs[..i]) && (forall j :: 0 <= j < i ==> specs[j].name != specs[i].name)
                 && (specs[i].force || IsFastForward(refs, specs[i].name, specs[i].commit))
  {
    var more, some := specs[..i + 1], specs[..i];
    assert forall j :: 0 <= j < i ==> more[j] == some[j];
    assert more[i] == specs[i];
  }

  /** With distinct targets every spec's target holds its commit and every other ref is as before. */
  lemma {:induction false} PushedIs(refs: Refs, specs: seq<PushSpec>)
    requires DistinctTargets(specs)
    ensures forall i :: 0 <= i < |specs| ==>
              specs[i].name in Pushed(refs, specs) && Pushed(refs, specs)[specs[i].name] == specs[i].commit
    ensures forall n :: (forall i :: 0 <= i < |specs| ==> specs[i].name != n) ==>
              (n in Pushed(refs, specs) <==> n in refs) && (n in refs ==> Pushed(refs, specs)[n] == refs[n])
    decreases |specs|
  {
    if specs != [] {
      var n := |specs| - 1;
      PushedIs(refs, specs[..n]);
      forall i | 0 <= i < |specs|
        ensures specs[i].name in Pushed(refs, specs) && Pushed(refs, specs)[specs[i].name] == specs[i].commit
      {
        if i < n {
          assert specs[..n][i] == specs[i];
        }
      }
      forall m | (forall i :: 0 <= i < |specs| ==> specs[i].name != m)
        ensures (m in Pushed(refs, specs) <==> m in refs) && (m in refs ==> Pushed(refs, specs)[m] == refs[m])
      {
        assert forall i :: 0 <= i < n ==> specs[..n][i].name == specs[i].name;
      }
    }
  }
}

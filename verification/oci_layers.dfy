/**
  Flattening an OCI image: layers are applied one after the other to one directory tree,
  entry by entry in archive order, with whiteout entries removing what is already there.
  The image format says instead what a path finally holds (layer.md, section "Whiteouts"):
  a whiteout hides only what lower layers put there. `Overlay` is that reading.
*/
module OciLayers {
  import opened Sequences
  import opened Wrappers

  type Path = seq<string>

  datatype Node = Directory | File(data: Bytes)

  type Tree = map<Path, Node>

  datatype Entry = Entry(path: Path, node: Node)

  datatype WhiteoutKind = Opaque | Named(name: string) | NotWhiteout

  function ClassifyWhiteout(fileName: string): WhiteoutKind {
    if fileName == ".wh..wh..opq" then Opaque
    else if ".wh." <= fileName then Named(fileName[4..])
    else NotWhiteout
  }

  /** What one archive entry does to the tree. */
  datatype Action = RemoveBelow(dir: Path) | RemoveAt(target: Path) | Put(path: Path, node: Node)

  function ActionOf(e: Entry): Action {
    if e.path == [] then Put(e.path, e.node)
    else
      var parent := e.path[..|e.path| - 1];
      match ClassifyWhiteout(e.path[|e.path| - 1])
      case Opaque => RemoveBelow(parent)
      case Named(name) => RemoveAt(if name == "" then parent else parent + [name])
      case NotWhiteout => Put(e.path, e.node)
  }

  predicate Within(top: Path, p: Path) {
    top <= p
  }

  predicate StrictlyWithin(dir: Path, p: Path) {
    |dir| < |p| && dir <= p
  }

  predicate Hides(a: Action, p: Path) {
    match a
    case RemoveBelow(dir) => StrictlyWithin(dir, p)
    case RemoveAt(target) => Within(target, p)
    case Put(_, _) => false
  }

  predicate Adds(a: Action, p: Path) {
    a.Put? && a.path == p
  }

  function Get(t: Tree, p: Path): Option<Node> {
    if p in t then Some(t[p]) else None
  }

  function RemoveTree(t: Tree, top: Path): Tree {
    map p | p in t && !Within(top, p) :: t[p]
  }

  function Act(t: Tree, a: Action): Tree {
    match a
    case RemoveBelow(dir) => map p | p in t && !StrictlyWithin(dir, p) :: t[p]
    case RemoveAt(target) => RemoveTree(t, target)
    case Put(path, node) => t[path := node]
  }

  /** One layer, its actions in archive order. */
  function ApplyActions(t: Tree, actions: seq<Action>): Tree {
    if actions == [] then t
    else Act(ApplyActions(t, actions[..|actions| - 1]), actions[|actions| - 1])
  }

  function Actions(entries: seq<Entry>): (as_: seq<Action>)
    ensures |as_| == |entries|
    ensures forall i :: 0 <= i < |entries| ==> as_[i] == ActionOf(entries[i])
  {
    seq(|entries|, i requires 0 <= i < |entries| => ActionOf(entries[i]))
  }

  function Flatten(layers: seq<seq<Action>>): Tree {
    if layers == [] then map[]
    else ApplyActions(Flatten(layers[..|layers| - 1]), layers[|layers| - 1])
  }

  // ---------- The declarative overlay ----------

  /** What the layer puts at `p`: its last entry for `p`. */
  function Added(actions: seq<Action>, p: Path): (r: Option<Node>)
    ensures r.Some? <==> exists i :: 0 <= i < |actions| && Adds(actions[i], p)
  {
    if actions == [] then None
    else
      var last := actions[|actions| - 1];
      var before := Added(actions[..|actions| - 1], p);
      if Adds(last, p) then Some(last.node) else before
  }

  predicate Hidden(actions: seq<Action>, p: Path) {
    exists i :: 0 <= i < |actions| && Hides(actions[i], p)
  }

  /**
    A path holds what the layer adds there; failing that, nothing if the layer hides it; failing that, what was below.
  */
  function LayerOver(below: Option<Node>, actions: seq<Action>, p: Path): Option<Node> {
    if Added(actions, p).Some? then Added(actions, p)
    else if Hidden(actions, p) then None
    else below
  }

  function Overlay(layers: seq<seq<Action>>, p: Path): Option<Node> {
    if layers == [] then None
    else LayerOver(Overlay(layers[..|layers| - 1], p), layers[|layers| - 1], p)
  }

  /** The topmost layer that mentions `p`, by adding or hiding it, decides. */
  lemma {:induction false} TopmostMentionDecides(layers: seq<seq<Action>>, p: Path, i: nat)
    requires i < |layers|
    requires Added(layers[i], p).Some? || Hidden(layers[i], p)
    requires forall j :: i < j < |layers| ==> Added(layers[j], p).None? && !Hidden(layers[j], p)
    ensures Overlay(layers, p) == Added(layers[i], p)
  {
    var n := |layers| - 1;
    if i < n {
      assert forall j :: 0 <= j < n ==> layers[..n][j] == layers[j];
      TopmostMentionDecides(layers[..n], p, i);
    }
  }

  // ---------- Archive order against the overlay ----------

  /** A whiteout comes after an entry of its own layer that it hides, and that entry is not repeated later. */
  ghost predicate LateWhiteout(actions: seq<Action>, p: Path, i: nat, j: nat) {
    && i < j < |actions| && Adds(actions[i], p) && Hides(actions[j], p)
    && forall k :: j < k < |actions| ==> !Adds(actions[k], p)
  }

  ghost predicate WhiteoutsComeFirst(actions: seq<Action>) {
    forall p, i, j :: !LateWhiteout(actions, p, i, j)
  }

  ghost predicate FollowsOverlay(actions: seq<Action>) {
    forall t, p :: Get(ApplyActions(t, actions), p) == LayerOver(Get(t, p), actions, p)
  }

  /** The last action that touches `p`, if any. */
  function LastTouch(actions: seq<Action>, p: Path): (r: Option<nat>)
    ensures r.Some? ==> r.value < |actions| && (Adds(actions[r.value], p) || Hides(actions[r.value], p))
    ensures r.Some? ==> forall k :: r.value < k < |actions| ==> !Adds(actions[k], p) && !Hides(actions[k], p)
    ensures r.None? ==> forall k :: 0 <= k < |actions| ==> !Adds(actions[k], p) && !Hides(actions[k], p)
  {
    if actions == [] then None
    else
      var n := |actions| - 1;
      if Adds(actions[n], p) || Hides(actions[n], p) then Some(n) else LastTouch(actions[..n], p)
  }

  lemma ActAt(t: Tree, a: Action, p: Path)
    ensures Get(Act(t, a), p) == if Adds(a, p) then Some(a.node) else if Hides(a, p) then None else Get(t, p)
  {
  }

  /** In archive order the last action that touches a path decides what it holds. */
  lemma {:induction false} LastTouchDecides(t: Tree, actions: seq<Action>, p: Path)
    ensures var r := LastTouch(actions, p);
            Get(ApplyActions(t, actions), p)
            == if r.None? then Get(t, p) else if Adds(actions[r.value], p) then Some(actions[r.value].node) else None
  {
    if actions != [] {
      var n := |actions| - 1;
      LastTouchDecides(t, actions[..n], p);
      ActAt(ApplyActions(t, actions[..n]), actions[n], p);
    }
  }

  lemma {:induction false} AddedIsLastAdd(actions: seq<Action>, p: Path, i: nat)
    requires i < |actions| && Adds(actions[i], p)
    requires forall k :: i < k < |actions| ==> !Adds(actions[k], p)
    ensures Added(actions, p) == Some(actions[i].node)
  {
    var n := |actions| - 1;
    if i < n {
      AddedIsLastAdd(actions[..n], p, i);
    }
  }

  /** At one path, archive order and overlay disagree exactly where a whiteout comes too late. */
  lemma DisagreesExactlyWhen(t: Tree, actions: seq<Action>, p: Path)
    ensures Get(ApplyActions(t, actions), p) != LayerOver(Get(t, p), actions, p)
            <==> exists i, j :: LateWhiteout(actions, p, i, j)
  {
    LastTouchDecides(t, actions, p);
    var r := LastTouch(actions, p);
    if r.Some? && Adds(actions[r.value], p) {
      AddedIsLastAdd(actions, p, r.value);
    } else if r.Some? && Added(actions, p).Some? {
      var i :| 0 <= i < |actions| && Adds(actions[i], p);
      assert LateWhiteout(actions, p, i, r.value);
    }
  }

  /**
    A layer means what the image format says, on every tree, exactly when no whiteout comes after what it would hide.
  */
  lemma LayerFollowsOverlayExactlyWhen(actions: seq<Action>)
    ensures FollowsOverlay(actions) <==> WhiteoutsComeFirst(actions)
  {
    if WhiteoutsComeFirst(actions) {
      forall t, p ensures Get(ApplyActions(t, actions), p) == LayerOver(Get(t, p), actions, p) {
        DisagreesExactlyWhen(t, actions, p);
      }
    } else {
      var p, i, j :| LateWhiteout(actions, p, i, j);
      DisagreesExactlyWhen(map[], actions, p);
    }
  }

  ghost predicate HasLate(actions: seq<Action>, p: Path) {
    exists i: nat, j: nat :: LateWhiteout(actions, p, i, j)
  }

  predicate Mentions(actions: seq<Action>, p: Path) {
    Added(actions, p).Some? || Hidden(actions, p)
  }

  /** Layer `l` has a late whiteout at `p`, and no layer above it mentions `p`. */
  ghost predicate LateOnTop(layers: seq<seq<Action>>, p: Path, l: nat) {
    && l < |layers| && HasLate(layers[l], p)
    && forall m :: l < m < |layers| ==> !Mentions(layers[m], p)
  }

  lemma LateMentions(actions: seq<Action>, p: Path)
    requires HasLate(actions, p)
    ensures Mentions(actions, p)
  {
    var i: nat, j: nat :| LateWhiteout(actions, p, i, j);
    assert Hides(actions[j], p);
  }

  /** A layer that mentions a path decides it in both readings, whatever is below; one that does not passes it on. */
  lemma TopLayerDecides(t: Tree, below: Option<Node>, top: seq<Action>, p: Path)
    ensures Mentions(top, p) ==> (Get(ApplyActions(t, top), p) != LayerOver(below, top, p) <==> HasLate(top, p))
    ensures !Mentions(top, p) ==> Get(ApplyActions(t, top), p) == Get(t, p) && LayerOver(below, top, p) == below
  {
    DisagreesExactlyWhen(t, top, p);
    LastTouchDecides(t, top, p);
    var r := LastTouch(top, p);
    assert r.Some? ==> Mentions(top, p);
  }

  lemma LateOnTopOfMore(layers: seq<seq<Action>>, p: Path)
    requires layers != []
    ensures var n := |layers| - 1;
            (exists l: nat :: LateOnTop(layers, p, l))
            <==> HasLate(layers[n], p) || (!Mentions(layers[n], p) && exists l: nat :: LateOnTop(layers[..n], p, l))
  {
    var n := |layers| - 1;
    if l: nat :| LateOnTop(layers, p, l) {
      if l < n {
        assert LateOnTop(layers[..n], p, l);
      }
    }
    if HasLate(layers[n], p) {
      assert LateOnTop(layers, p, n);
    }
    if !Mentions(layers[n], p) && exists l: nat :: LateOnTop(layers[..n], p, l) {
      var l: nat :| LateOnTop(layers[..n], p, l);
      forall m | l < m < |layers| ensures !Mentions(layers[m], p) {
        assert m < n ==> layers[..n][m] == layers[m];
      }
      assert LateOnTop(layers, p, l);
    }
  }

  /**
    A stack of layers differs from its overlay at a path exactly when a late whiteout there is not covered by a layer
    above.
  */
  lemma {:induction false} StackDisagreesExactlyWhen(layers: seq<seq<Action>>, p: Path)
    ensures Get(Flatten(layers), p) != Overlay(layers, p) <==> exists l: nat :: LateOnTop(layers, p, l)
  {
    if layers != [] {
      var n := |layers| - 1;
      StackDisagreesExactlyWhen(layers[..n], p);
      TopLayerDecides(Flatten(layers[..n]), Overlay(layers[..n], p), layers[n], p);
      LateOnTopOfMore(layers, p);
      if HasLate(layers[n], p) {
        LateMentions(layers[n], p);
      }
    }
  }

  /** For layers whose whiteouts come first, applying them in order is the overlay. */
  lemma FlattenIsOverlay(layers: seq<seq<Action>>, p: Path)
    requires forall i :: 0 <= i < |layers| ==> WhiteoutsComeFirst(layers[i])
    ensures Get(Flatten(layers), p) == Overlay(layers, p)
  {
    StackDisagreesExactlyWhen(layers, p);
    forall l: nat ensures !LateOnTop(layers, p, l) {
      assert l < |layers| ==> WhiteoutsComeFirst(layers[l]);
    }
  }

  /** An opaque whiteout listed after a sibling removes it, against the image format. */
  lemma LateOpaqueRemovesSibling()
    ensures var layer := Actions([Entry(["etc", "hosts"], File([])), Entry(["etc", ".wh..wh..opq"], File([]))]);
            && Get(Flatten([layer]), ["etc", "hosts"]) == None
            && Overlay([layer], ["etc", "hosts"]) == Some(File([]))
  {
    var layer := Actions([Entry(["etc", "hosts"], File([])), Entry(["etc", ".wh..wh..opq"], File([]))]);
    var p := ["etc", "hosts"];
    assert "hosts"[0] != ".wh."[0] == ".wh..wh..opq"[0];
    assert ClassifyWhiteout("hosts") == NotWhiteout;
    assert p[1] == "hosts";
    assert layer[0] == Put(p, File([]));
    assert ["etc", ".wh..wh..opq"][..1] == ["etc"] && p[..1] == ["etc"];
    assert layer[1] == RemoveBelow(["etc"]) && Hides(layer[1], p);
    LastTouchDecides(map[], layer, p);
    AddedIsLastAdd(layer, p, 0);
    assert [layer][..0] == [];
  }

  // ---------- What archive entries mean ----------

  lemma Splits(parent: Path, last: string)
    ensures var p := parent + [last]; p != [] && p[..|p| - 1] == parent && p[|p| - 1] == last
  {
  }

  /** `parent/.wh.name` hides `parent/name` with everything below it and nothing else, and puts nothing. */
  lemma NamedWhiteoutHides(parent: Path, name: string, node: Node, p: Path)
    requires name != "" && ".wh." + name != ".wh..wh..opq"
    ensures var a := ActionOf(Entry(parent + [".wh." + name], node));
            (Hides(a, p) <==> parent + [name] <= p) && !Adds(a, p)
  {
    Splits(parent, ".wh." + name);
    assert (".wh." + name)[4..] == name;
  }

  /** `parent/.wh..wh..opq` hides what is strictly below `parent` and nothing else, and puts nothing. */
  lemma OpaqueWhiteoutHides(parent: Path, node: Node, p: Path)
    ensures var a := ActionOf(Entry(parent + [".wh..wh..opq"], node));
            (Hides(a, p) <==> parent <= p && p != parent) && !Adds(a, p)
  {
    Splits(parent, ".wh..wh..opq");
  }

  /** A whiteout without a name hides its own directory and everything below it. */
  lemma NamelessWhiteoutHides(parent: Path, node: Node, p: Path)
    ensures var a := ActionOf(Entry(parent + [".wh."], node));
            (Hides(a, p) <==> parent <= p) && !Adds(a, p)
  {
    Splits(parent, ".wh.");
  }

  /** Any other entry puts its node at its own path and hides nothing. */
  lemma PlainEntryPuts(e: Entry, p: Path)
    requires e.path == [] || !(".wh." <= e.path[|e.path| - 1])
    ensures var a := ActionOf(e); !Hides(a, p) && (Adds(a, p) <==> e.path == p) && (Adds(a, p) ==> a.node == e.node)
  {
  }

  predicate IsWhiteout(e: Entry) {
    e.path != [] && ".wh." <= e.path[|e.path| - 1]
  }

  /** The whiteout rules, read off the path of an entry. */
  predicate EntryHides(e: Entry, p: Path) {
    IsWhiteout(e)
    && var parent, file := e.path[..|e.path| - 1], e.path[|e.path| - 1];
       if file == ".wh..wh..opq" then parent <= p && p != parent
       else if file == ".wh." then parent <= p
       else parent + [file[4..]] <= p
  }

  predicate EntryPuts(e: Entry, p: Path) {
    !IsWhiteout(e) && e.path == p
  }

  lemma ActionReads(e: Entry, p: Path)
    ensures Hides(ActionOf(e), p) <==> EntryHides(e, p)
    ensures Adds(ActionOf(e), p) <==> EntryPuts(e, p)
    ensures Adds(ActionOf(e), p) ==> ActionOf(e).node == e.node
  {
    if IsWhiteout(e) {
      var parent, file := e.path[..|e.path| - 1], e.path[|e.path| - 1];
      assert e.path == parent + [file] && file == ".wh." + file[4..];
      if file == ".wh..wh..opq" {
        OpaqueWhiteoutHides(parent, e.node, p);
      } else if file == ".wh." {
        NamelessWhiteoutHides(parent, e.node, p);
      } else {
        NamedWhiteoutHides(parent, file[4..], e.node, p);
      }
    } else {
      PlainEntryPuts(e, p);
    }
  }

  predicate Touches(e: Entry, p: Path) {
    EntryHides(e, p) || EntryPuts(e, p)
  }

  /** Entry `i` is the last one to touch `p`. */
  ghost predicate LastToTouch(entries: seq<Entry>, p: Path, i: nat) {
    && i < |entries| && Touches(entries[i], p)
    && forall k :: i < k < |entries| ==> !Touches(entries[k], p)
  }

  /** What `p` holds after the entries, given what it held before: the last entry that touches it decides. */
  ghost predicate EntriesDecide(entries: seq<Entry>, p: Path, before: Option<Node>, after: Option<Node>) {
    && (forall i: nat :: LastToTouch(entries, p, i) ==>
          after == if EntryPuts(entries[i], p) then Some(entries[i].node) else None)
    && ((forall i :: 0 <= i < |entries| ==> !Touches(entries[i], p)) ==> after == before)
  }

  lemma EntriesDecideLayer(t: Tree, entries: seq<Entry>, p: Path)
    ensures EntriesDecide(entries, p, Get(t, p), Get(ApplyActions(t, Actions(entries)), p))
  {
    var actions := Actions(entries);
    LastTouchDecides(t, actions, p);
    forall i | 0 <= i < |entries|
      ensures Touches(entries[i], p) <==> Adds(actions[i], p) || Hides(actions[i], p)
      ensures Adds(actions[i], p) <==> EntryPuts(entries[i], p)
      ensures Adds(actions[i], p) ==> actions[i].node == entries[i].node
    {
      ActionReads(entries[i], p);
    }
    var r := LastTouch(actions, p);
    if r.Some? {
      assert LastToTouch(entries, p, r.value);
    }
  }

  lemma {:induction false} ApplyTogether(t: Tree, a: seq<Action>, b: seq<Action>)
    ensures ApplyActions(t, a + b) == ApplyActions(ApplyActions(t, a), b)
    decreases |b|
  {
    if b == [] {
      assert a + b == a;
    } else {
      var n := |b| - 1;
      assert (a + b)[..|a + b| - 1] == a + b[..n] && (a + b)[|a + b| - 1] == b[n];
      ApplyTogether(t, a, b[..n]);
    }
  }

  lemma OneLayerMore(t: Tree, layers: seq<seq<Entry>>, i: nat)
    requires i < |layers|
    ensures ApplyActions(t, Actions(Concat(layers[..i + 1])))
            == ApplyActions(ApplyActions(t, Actions(Concat(layers[..i]))), Actions(layers[i]))
  {
    ConcatPush(layers[..i], layers[i]);
    assert layers[..i + 1] == layers[..i] + [layers[i]];
    assert Actions(Concat(layers[..i]) + layers[i]) == Actions(Concat(layers[..i])) + Actions(layers[i]);
    ApplyTogether(t, Actions(Concat(layers[..i])), Actions(layers[i]));
  }

  // ---------- The tree, changed in place ----------

  class Rootfs {
    var nodes: Tree

    constructor ()
      ensures nodes == map[]
    {
      nodes := map[];
    }

    method RemoveDirAll(top: Path)
      modifies this
      ensures nodes == RemoveTree(old(nodes), top)
      ensures forall p :: Get(nodes, p) == if Within(top, p) then None else Get(old(nodes), p)
    {
      nodes := map p | p in nodes && !Within(top, p) :: nodes[p];
    }

    /** Removes the children found in a directory listing, one subtree at a time. */
    method ClearDirectory(dir: Path)
      modifies this
      ensures nodes == Act(old(nodes), RemoveBelow(dir))
    {
      var children := set p | p in nodes && StrictlyWithin(dir, p) :: p[..|dir| + 1];
      ghost var gone: set<Path> := {};
      while children != {}
        invariant children + gone == set p | p in old(nodes) && StrictlyWithin(dir, p) :: p[..|dir| + 1]
        invariant nodes == map p | p in old(nodes)
                  && !(StrictlyWithin(dir, p) && p[..|dir| + 1] in gone) :: old(nodes)[p]
        decreases children
      {
        var child :| child in children;
        ChildSubtree(dir, child, old(nodes));
        RemoveDirAll(child);
        children, gone := children - {child}, gone + {child};
      }
    }

    method ApplyLayer(entries: seq<Entry>)
      modifies this
      ensures nodes == ApplyActions(old(nodes), Actions(entries))
      ensures forall p :: EntriesDecide(entries, p, Get(old(nodes), p), Get(nodes, p))
    {
      var actions := Actions(entries);
      for i := 0 to |entries|
        invariant nodes == ApplyActions(old(nodes), actions[..i])
      {
        assert actions[..i + 1][..i] == actions[..i];
        match ActionOf(entries[i])
        case RemoveBelow(dir) => ClearDirectory(dir);
        case RemoveAt(target) => RemoveDirAll(target);
        case Put(path, node) => nodes := nodes[path := node];
      }
      assert actions[..|entries|] == actions;
      forall p ensures EntriesDecide(entries, p, Get(old(nodes), p), Get(nodes, p)) {
        EntriesDecideLayer(old(nodes), entries, p);
      }
    }

    /** All layers, bottom first: of all their entries in this order the last one to touch a path decides it. */
    method PullAndFlatten(layers: seq<seq<Entry>>)
      requires nodes == map[]
      modifies this
      ensures nodes == Flatten(seq(|layers|, i requires 0 <= i < |layers| => Actions(layers[i])))
      ensures forall p :: EntriesDecide(Concat(layers), p, None, Get(nodes, p))
    {
      var all := seq(|layers|, i requires 0 <= i < |layers| => Actions(layers[i]));
      for i := 0 to |layers|
        invariant nodes == Flatten(all[..i])
        invariant nodes == ApplyActions(map[], Actions(Concat(layers[..i])))
      {
        assert all[..i + 1][..i] == all[..i];
        OneLayerMore(map[], layers, i);
        ApplyLayer(layers[i]);
      }
      assert all[..|layers|] == all && layers[..|layers|] == layers;
      forall p ensures EntriesDecide(Concat(layers), p, None, Get(nodes, p)) {
        EntriesDecideLayer(map[], Concat(layers), p);
      }
    }
  }

  lemma ChildSubtree(dir: Path, child: Path, t: Tree)
    requires exists p :: p in t && StrictlyWithin(dir, p) && p[..|dir| + 1] == child
    ensures forall p :: p in t ==> (Within(child, p) <==> StrictlyWithin(dir, p) && p[..|dir| + 1] == child)
  {
    var q :| q in t && StrictlyWithin(dir, q) && q[..|dir| + 1] == child;
    assert child[..|dir|] == dir;
    forall p | p in t && Within(child, p) ensures StrictlyWithin(dir, p) && p[..|dir| + 1] == child {
      assert p[..|dir|] == child[..|dir|];
    }
  }
}

/** The egress policy: an allowlist composed from what the adapter needs and what the user adds. */
module Egress {
  import opened Sequences
  import opened Text
  import opened Wrappers

  datatype Host = Host(name: string)

  function Norm(s: string): Host {
    Host(Lower(Trim(s)))
  }

  function Usable(s: string): Option<Host> {
    if Norm(s).name == "" then None else Some(Norm(s))
  }

  /** The normalised entries, blank ones dropped, each once and at its first mention. */
  function Composed(entries: seq<string>): seq<Host> {
    FirstMentions(Select(Usable, entries), {})
  }

  /** `list` and what `rest` still adds to it make up `all`. */
  predicate Built(list: seq<Host>, seen: set<Host>, rest: seq<string>, all: seq<Host>) {
    list + FirstMentions(Select(Usable, rest), seen) == all
  }

  class EgressPolicy {
    var allowed: seq<Host>

    constructor Compose(adapterDeclared: seq<string>, userAdded: seq<string>)
      ensures allowed == Composed(adapterDeclared + userAdded)
    {
      var seen: set<Host>, list: seq<Host> := {}, [];
      ghost var all := Composed(adapterDeclared + userAdded);
      assert adapterDeclared[0..] == adapterDeclared;
      for i := 0 to |adapterDeclared|
        invariant Built(list, seen, adapterDeclared[i..] + userAdded, all)
      {
        OneEntry(list, seen, adapterDeclared, i, userAdded, all);
        var norm := Norm(adapterDeclared[i]);
        if norm.name != "" && norm !in seen {
          seen := seen + {norm};
          list := list + [norm];
        }
      }
      assert adapterDeclared[|adapterDeclared|..] + userAdded == userAdded[0..] + [];
      for i := 0 to |userAdded|
        invariant Built(list, seen, userAdded[i..] + [], all)
      {
        OneEntry(list, seen, userAdded, i, [], all);
        var norm := Norm(userAdded[i]);
        if norm.name != "" && norm !in seen {
          seen := seen + {norm};
          list := list + [norm];
        }
      }
      NothingLeft(list, seen, userAdded[|userAdded|..] + [], all);
      allowed := list;
    }

    method Allows(destination: string) returns (yes: bool)
      ensures yes <==> Norm(destination) in allowed
    {
      var norm := Norm(destination);
      yes := false;
      for i := 0 to |allowed|
        invariant yes <==> norm in allowed[..i]
      {
        yes := yes || allowed[i] == norm;
      }
    }
  }

  lemma NextEntry(list: seq<Host>, seen: set<Host>, s: string, rest: seq<string>, all: seq<Host>)
    requires Built(list, seen, [s] + rest, all)
    ensures if Norm(s).name != "" && Norm(s) !in seen then Built(list + [Norm(s)], seen + {Norm(s)}, rest, all)
            else Built(list, seen, rest, all)
  {
    var later := Select(Usable, rest);
    assert ([s] + rest)[1..] == rest;
    if Norm(s).name == "" {
      assert [] + later == later;
    } else {
      assert ([Norm(s)] + later)[1..] == later;
      if Norm(s) in seen {
        assert seen + {Norm(s)} == seen && [] + FirstMentions(later, seen) == FirstMentions(later, seen);
      } else {
        AppendAssoc(list, [Norm(s)], FirstMentions(later, seen + {Norm(s)}));
      }
    }
  }

  lemma OneEntry(list: seq<Host>, seen: set<Host>, entries: seq<string>, i: nat, tail: seq<string>, all: seq<Host>)
    requires i < |entries| && Built(list, seen, entries[i..] + tail, all)
    ensures var norm := Norm(entries[i]);
            if norm.name != "" && norm !in seen then Built(list + [norm], seen + {norm}, entries[i + 1..] + tail, all)
            else Built(list, seen, entries[i + 1..] + tail, all)
  {
    assert entries[i..] + tail == [entries[i]] + (entries[i + 1..] + tail);
    NextEntry(list, seen, entries[i], entries[i + 1..] + tail, all);
  }

  lemma NothingLeft(list: seq<Host>, seen: set<Host>, rest: seq<string>, all: seq<Host>)
    requires Built(list, seen, rest, all) && rest == []
    ensures list == all
  {
  }

  /**
    A destination is allowed iff, trimmed and in lower case, it is a non-blank entry of the adapter's or the user's
    list so treated.
  */
  lemma AllowedIsTheUnion(adapterDeclared: seq<string>, userAdded: seq<string>, destination: string)
    ensures Norm(destination) in Composed(adapterDeclared + userAdded)
            <==> Norm(destination).name != ""
                 && ((exists i :: 0 <= i < |adapterDeclared| && Norm(adapterDeclared[i]) == Norm(destination))
                     || (exists i :: 0 <= i < |userAdded| && Norm(userAdded[i]) == Norm(destination)))
  {
    var norm := Norm(destination);
    SelectAppend(Usable, adapterDeclared, userAdded);
    UsableHas(adapterDeclared, norm);
    UsableHas(userAdded, norm);
  }

  /** One more user entry comes last in the policy, unless it is blank or was mentioned before. */
  lemma ComposedGrows(entries: seq<string>, s: string)
    ensures Composed(entries + [s])
            == Composed(entries) + if Norm(s).name == "" || Norm(s) in Composed(entries) then [] else [Norm(s)]
  {
    SelectPush(Usable, entries, s);
    if Norm(s).name != "" {
      FirstMentionsPush(Select(Usable, entries), {}, Norm(s));
    } else {
      assert Composed(entries) + [] == Composed(entries);
    }
  }

  /** `low` is `s` with its ASCII capitals made small and every other character as it was. */
  ghost predicate IsLowered(s: string, low: string) {
    && |low| == |s|
    && forall k :: 0 <= k < |s| ==>
         && (forall i :: 0 <= i < 26 && s[k] == UPPER[i] ==> low[k] == LOWER[i])
         && (s[k] !in UPPER ==> low[k] == s[k])
  }

  /** The normal form is what lies between the margins of white space, in small letters. */
  lemma NormIs(s: string) returns (lead: string, middle: string, trail: string)
    ensures s == lead + middle + trail && AllSpaces(lead) && AllSpaces(trail) && HasNoMargin(middle)
    ensures IsLowered(middle, Norm(s).name)
  {
    lead, trail := TrimIsMiddle(s);
    middle := Trim(s);
    LowerIsLowered(middle);
  }

  /** Two destinations count as one exactly when they agree between their margins but for case. */
  lemma SameNormExactlyWhen(s: string, t: string)
    ensures Norm(s) == Norm(t) <==> exists low :: IsLowered(Trim(s), low) && IsLowered(Trim(t), low)
  {
    LowerIsLowered(Trim(s));
    LowerIsLowered(Trim(t));
    if low :| IsLowered(Trim(s), low) && IsLowered(Trim(t), low) {
      LoweredIsUnique(Trim(s), low, Lower(Trim(s)));
      LoweredIsUnique(Trim(t), low, Lower(Trim(t)));
    }
  }

  lemma LowerIsLowered(s: string)
    ensures IsLowered(s, Lower(s))
  {
    forall k | 0 <= k < |s|
      ensures (forall i :: 0 <= i < 26 && s[k] == UPPER[i] ==> Lower(s)[k] == LOWER[i])
              && (s[k] !in UPPER ==> Lower(s)[k] == s[k])
    {
      LoweredAt(s, k);
    }
  }

  lemma LoweredIsUnique(s: string, a: string, b: string)
    requires IsLowered(s, a) && IsLowered(s, b)
    ensures a == b
  {
    forall k | 0 <= k < |s| ensures a[k] == b[k] {
      if s[k] in UPPER {
        var i :| 0 <= i < 26 && UPPER[i] == s[k];
      }
    }
  }

  lemma UsableHas(entries: seq<string>, norm: Host)
    ensures norm in Select(Usable, entries)
            <==> norm.name != "" && exists i :: 0 <= i < |entries| && Norm(entries[i]) == norm
  {
    SelectHas(Usable, entries, norm);
    forall i | 0 <= i < |entries|
      ensures Usable(entries[i]) == Some(norm) <==> norm.name != "" && Norm(entries[i]) == norm
    {
    }
  }
}

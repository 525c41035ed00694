/** Sequence facts shared by every module. */
module Sequences {
  import opened Wrappers

  function Concat<T>(parts: seq<seq<T>>): seq<T> {
    if parts == [] then [] else parts[0] + Concat(parts[1..])
  }

  lemma AppendAssoc<T>(a: seq<T>, b: seq<T>, c: seq<T>)
    ensures a + (b + c) == a + b + c
  {
  }

  lemma {:induction false} ConcatPush<T>(parts: seq<seq<T>>, last: seq<T>)
    ensures Concat(parts + [last]) == Concat(parts) + last
    decreases |parts|
  {
    if parts == [] {
      assert parts + [last] == [last] && [last][1..] == [];
    } else {
      assert (parts + [last])[1..] == parts[1..] + [last];
      ConcatPush(parts[1..], last);
      AppendAssoc(parts[0], Concat(parts[1..]), last);
    }
  }

  lemma AppendAssoc4<T>(a: seq<T>, b: seq<T>, c: seq<T>, d: seq<T>)
    ensures a + (b + c + d) == a + b + c + d
  {
  }

  lemma TailOf<T>(x: T, rest: seq<T>)
    ensures ([x] + rest)[1..] == rest
  {
  }

  lemma SamePrefix<T>(p: seq<T>, a: seq<T>, b: seq<T>)
    requires p + a == p + b
    ensures a == b
  {
    assert (p + a)[|p|..] == a && (p + b)[|p|..] == b;
  }

  /** The images under `f` of the elements that have one, in order. */
  function Select<X, Y>(f: X -> Option<Y>, xs: seq<X>): seq<Y> {
    if xs == [] then []
    else (match f(xs[0]) case Some(y) => [y] case None => []) + Select(f, xs[1..])
  }

  lemma {:induction false} SelectAppend<X, Y>(f: X -> Option<Y>, a: seq<X>, b: seq<X>)
    ensures Select(f, a + b) == Select(f, a) + Select(f, b)
  {
    if a == [] {
      assert a + b == b;
    } else {
      assert (a + b)[0] == a[0] && (a + b)[1..] == a[1..] + b;
      SelectAppend(f, a[1..], b);
      AppendAssoc(match f(a[0]) case Some(y) => [y] case None => [], Select(f, a[1..]), Select(f, b));
    }
  }

  lemma SelectOne<X, Y>(f: X -> Option<Y>, x: X)
    ensures Select(f, [x]) == match f(x) case Some(y) => [y] case None => []
  {
    assert [x][1..] == [];
  }

  lemma SelectPush<X, Y>(f: X -> Option<Y>, a: seq<X>, x: X)
    ensures Select(f, a + [x]) == match f(x) case Some(y) => Select(f, a) + [y] case None => Select(f, a)
  {
    SelectOne(f, x);
    SelectAppend(f, a, [x]);
  }

  lemma SelectTake<X, Y>(f: X -> Option<Y>, xs: seq<X>, i: nat)
    requires i < |xs|
    ensures Select(f, xs[..i + 1])
            == match f(xs[i]) case Some(y) => Select(f, xs[..i]) + [y] case None => Select(f, xs[..i])
  {
    assert xs[..i + 1] == xs[..i] + [xs[i]];
    SelectPush(f, xs[..i], xs[i]);
  }

  lemma SelectPrefix<X, Y>(f: X -> Option<Y>, xs: seq<X>, i: nat)
    requires i <= |xs|
    ensures Select(f, xs[..i]) <= Select(f, xs)
  {
    assert xs == xs[..i] + xs[i..];
    SelectAppend(f, xs[..i], xs[i..]);
  }

  lemma {:induction false} SelectAll<X, Y>(f: X -> Option<Y>, xs: seq<X>, ys: seq<Y>)
    requires |xs| == |ys| && forall i :: 0 <= i < |xs| ==> f(xs[i]) == Some(ys[i])
    ensures Select(f, xs) == ys
    decreases |xs|
  {
    if xs != [] {
      SelectAll(f, xs[1..], ys[1..]);
    }
  }

  lemma {:induction false} SelectHas<X, Y>(f: X -> Option<Y>, xs: seq<X>, y: Y)
    ensures y in Select(f, xs) <==> exists i :: 0 <= i < |xs| && f(xs[i]) == Some(y)
    decreases |xs|
  {
    if xs != [] {
      SelectHas(f, xs[1..], y);
      if i :| 0 <= i < |xs| && f(xs[i]) == Some(y) {
        assert i > 0 ==> f(xs[1..][i - 1]) == Some(y);
      }
      if j :| 0 <= j < |xs[1..]| && f(xs[1..][j]) == Some(y) {
        assert f(xs[j + 1]) == Some(y);
      }
    }
  }

  lemma {:induction false} SelectNothing<X, Y>(f: X -> Option<Y>, xs: seq<X>)
    requires forall x :: x in xs ==> f(x) == None
    ensures Select(f, xs) == []
    decreases |xs|
  {
    if xs != [] {
      SelectNothing(f, xs[1..]);
    }
  }

  /** One more element is added at the end, unless it was mentioned before. */
  lemma {:induction false} FirstMentionsPush<T(!new)>(xs: seq<T>, seen: set<T>, x: T)
    ensures FirstMentions(xs + [x], seen) == FirstMentions(xs, seen) + if x in seen || x in xs then [] else [x]
    decreases |xs|
  {
    if xs == [] {
      assert xs + [x] == [x] && [x][1..] == [];
      assert FirstMentions<T>([], seen + {x}) == [];
    } else {
      assert (xs + [x])[0] == xs[0] && (xs + [x])[1..] == xs[1..] + [x];
      FirstMentionsPush(xs[1..], seen + {xs[0]}, x);
      AppendAssoc(if xs[0] in seen then [] else [xs[0]], FirstMentions(xs[1..], seen + {xs[0]}),
                  if x in seen || x in xs then [] else [x]);
    }
  }

  /** The elements of `xs` that are not in `seen`, each at its first mention only. */
  function FirstMentions<T(==, !new)>(xs: seq<T>, seen: set<T>): (firsts: seq<T>)
    ensures forall x :: x in firsts <==> x in xs && x !in seen
    ensures forall i, j :: 0 <= i < j < |firsts| ==> firsts[i] != firsts[j]
    decreases |xs|
  {
    if xs == [] then []
    else (if xs[0] in seen then [] else [xs[0]]) + FirstMentions(xs[1..], seen + {xs[0]})
  }
}

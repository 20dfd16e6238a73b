/** Optional values, as the source's `undefined`. */
module Options {
  datatype Option<+T> = None | Some(value: T)
}

/** List operations of the source's arrays (filter, flatMap, de-duplication through a Set) and
    the few laws about them that the other modules share. */
module Sequences {

  ghost predicate Distinct<T>(s: seq<T>) {
    forall i, j :: 0 <= i < j < |s| ==> s[i] != s[j]
  }

  function Filter<T(!new)>(s: seq<T>, keep: T -> bool): (r: seq<T>)
    ensures |r| <= |s|
    ensures forall x :: x in r <==> x in s && keep(x)
  {
    if s == [] then []
    else
      var rest := Filter(s[..|s| - 1], keep);
      assert s == s[..|s| - 1] + [s[|s| - 1]];
      if keep(s[|s| - 1]) then rest + [s[|s| - 1]] else rest
  }

  function Map<T, U>(s: seq<T>, f: T -> U): (r: seq<U>)
    ensures |r| == |s|
    ensures forall i :: 0 <= i < |s| ==> r[i] == f(s[i])
  {
    seq(|s|, i requires 0 <= i < |s| => f(s[i]))
  }

  function FlatMap<T, U>(s: seq<T>, f: T -> seq<U>): (r: seq<U>) {
    if s == [] then [] else FlatMap(s[..|s| - 1], f) + f(s[|s| - 1])
  }

  /** `[...new Set(s)]`: first occurrences, in order. */
  function Unique<T(==,!new)>(s: seq<T>): (r: seq<T>)
    ensures Distinct(r)
    ensures forall x :: x in r <==> x in s
    ensures |r| <= |s|
  {
    if s == [] then []
    else
      var rest := Unique(s[..|s| - 1]);
      assert s == s[..|s| - 1] + [s[|s| - 1]];
      if s[|s| - 1] in rest then rest else rest + [s[|s| - 1]]
  }

  lemma FilterLast<T(!new)>(s: seq<T>, x: T, keep: T -> bool)
    ensures Filter(s + [x], keep) == Filter(s, keep) + if keep(x) then [x] else []
  {
    assert (s + [x])[..|s|] == s;
  }

  lemma {:induction false} FilterConcat<T(!new)>(s: seq<T>, t: seq<T>, keep: T -> bool)
    ensures Filter(s + t, keep) == Filter(s, keep) + Filter(t, keep)
    decreases |t|
  {
    if t == [] {
      assert s + t == s;
    } else {
      var u, x := t[..|t| - 1], t[|t| - 1];
      var last := if keep(x) then [x] else [];
      calc {
        Filter(s + t, keep);
        { assert s + t == (s + u) + [x]; FilterLast(s + u, x, keep); }
        Filter(s + u, keep) + last;
        { FilterConcat(s, u, keep); }
        (Filter(s, keep) + Filter(u, keep)) + last;
        Filter(s, keep) + (Filter(u, keep) + last);
        { assert t == u + [x]; FilterLast(u, x, keep); }
        Filter(s, keep) + Filter(t, keep);
      }
    }
  }

  lemma {:induction false} FilterAll<T(!new)>(s: seq<T>, keep: T -> bool)
    requires forall x :: x in s ==> keep(x)
    ensures Filter(s, keep) == s
  {
    if s != [] {
      FilterAll(s[..|s| - 1], keep);
      assert s[|s| - 1] in s;
    }
  }

  lemma {:induction false} FilterDistinct<T(!new)>(s: seq<T>, keep: T -> bool)
    requires Distinct(s)
    ensures Distinct(Filter(s, keep))
  {
    if s != [] {
      FilterDistinct(s[..|s| - 1], keep);
    }
  }

  lemma {:induction false} FlatMapConcat<T, U>(s: seq<T>, t: seq<T>, f: T -> seq<U>)
    ensures FlatMap(s + t, f) == FlatMap(s, f) + FlatMap(t, f)
    decreases |t|
  {
    if t == [] {
      assert s + t == s;
    } else {
      var u := t[..|t| - 1];
      FlatMapConcat(s, u, f);
      assert (s + t)[..|s + t| - 1] == s + u;
    }
  }

  lemma {:induction false} FlatMapIncludes<T, U>(s: seq<T>, f: T -> seq<U>, x: T, y: U)
    requires x in s && y in f(x)
    ensures y in FlatMap(s, f)
  {
    var front, last := s[..|s| - 1], s[|s| - 1];
    assert s == front + [last];
    if x != last {
      FlatMapIncludes(front, f, x, y);
    }
  }

  lemma {:induction false} FlatMapOrigin<T, U>(s: seq<T>, f: T -> seq<U>, y: U) returns (x: T)
    requires y in FlatMap(s, f)
    ensures x in s && y in f(x)
  {
    var front, last := s[..|s| - 1], s[|s| - 1];
    assert s == front + [last];
    if y in f(last) {
      x := last;
    } else {
      x := FlatMapOrigin(front, f, y);
    }
  }

  lemma FlatMapNone<T, U>(s: seq<T>, f: T -> seq<U>)
    ensures FlatMap(s[..0], f) == []
  {
    assert s[..0] == [];
  }

  lemma FlatMapNext<T, U>(s: seq<T>, i: nat, f: T -> seq<U>)
    requires i < |s|
    ensures FlatMap(s[..i + 1], f) == FlatMap(s[..i], f) + f(s[i])
  {
    assert s[..i + 1][..i] == s[..i];
  }

  lemma UniqueLast<T(!new)>(s: seq<T>, x: T)
    ensures Unique(s + [x]) == if x in s then Unique(s) else Unique(s) + [x]
  {
    assert (s + [x])[..|s|] == s;
  }

  lemma {:induction false} UniqueOfDistinct<T(!new)>(s: seq<T>)
    requires Distinct(s)
    ensures Unique(s) == s
  {
    if s != [] {
      UniqueOfDistinct(s[..|s| - 1]);
    }
  }

  /** A duplicate-free list is determined up to order by its members; with one member it is that one. */
  lemma SingletonOfDistinct<T(!new)>(s: seq<T>, x: T)
    requires Distinct(s) && x in s && forall y :: y in s ==> y == x
    ensures s == [x]
  {
    assert s[0] in s && s[|s| - 1] in s;
  }
}

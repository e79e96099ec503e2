/** Order facts about the lists the storefront filters. */
module Sequences {

  /** `a` is `b` with some elements left out and the rest kept in order:
      what `Array.prototype.filter` returns. */
  predicate IsSubsequence<T(==)>(a: seq<T>, b: seq<T>)
  {
    if |a| == 0 then true
    else if |b| == 0 then false
    else if a[0] == b[0] then IsSubsequence(a[1..], b[1..])
    else IsSubsequence(a, b[1..])
  }

  /** An element kept by the filter extends the kept list by itself. */
  lemma SubsequenceKeep<T>(x: T, a: seq<T>, b: seq<T>)
    requires IsSubsequence(a, b)
    ensures IsSubsequence([x] + a, [x] + b)
  {
    assert ([x] + a)[1..] == a;
    assert ([x] + b)[1..] == b;
  }

  /** An element dropped by the filter leaves the kept list as it is. */
  lemma SubsequenceSkip<T>(x: T, a: seq<T>, b: seq<T>)
    requires IsSubsequence(a, b)
    requires |a| > 0 ==> a[0] != x
    ensures IsSubsequence(a, [x] + b)
  {
    assert ([x] + b)[1..] == b;
  }

  /** `r` is `xs.filter(keep)`, stated by what it keeps and in which order:
      it is empty exactly when nothing passes, it holds only elements of
      `xs` that pass, it holds every element that passes, as many times as
      `xs` does, and it keeps their order. */
  ghost predicate IsFilter<T(!new)>(keep: T -> bool, r: seq<T>, xs: seq<T>)
  {
    && (|r| == 0 <==> forall i :: 0 <= i < |xs| ==> !keep(xs[i]))
    && (forall i :: 0 <= i < |r| ==> keep(r[i]) && r[i] in xs)
    && (forall i :: 0 <= i < |xs| && keep(xs[i]) ==> xs[i] in r)
    && (forall x {:trigger multiset(r)[x]} :: multiset(r)[x] == if keep(x) then multiset(xs)[x] else 0)
    && IsSubsequence(r, xs)
  }

  /** One step of `filter(keep)`: if `rest` is the filter of the tail,
      then keeping or dropping the head gives the filter of the whole
      list. */
  lemma FilterStep<T(!new)>(keep: T -> bool, xs: seq<T>, rest: seq<T>)
    requires |xs| > 0 && IsFilter(keep, rest, xs[1..])
    ensures IsFilter(keep, if keep(xs[0]) then [xs[0]] + rest else rest, xs)
  {
    var r := if keep(xs[0]) then [xs[0]] + rest else rest;
    FilterStepEmpty(keep, xs, rest, r);
    FilterStepOnly(keep, xs, rest, r);
    FilterStepAll(keep, xs, rest, r);
    FilterStepCount(keep, xs, rest, r);
    FilterStepOrder(keep, xs, rest, r);
  }

  lemma FilterStepEmpty<T>(keep: T -> bool, xs: seq<T>, rest: seq<T>, r: seq<T>)
    requires |xs| > 0
    requires |rest| == 0 <==> forall i :: 0 <= i < |xs| - 1 ==> !keep(xs[1..][i])
    requires r == if keep(xs[0]) then [xs[0]] + rest else rest
    ensures |r| == 0 <==> forall i :: 0 <= i < |xs| ==> !keep(xs[i])
  {
    assert forall i :: 1 <= i < |xs| ==> xs[i] == xs[1..][i - 1];
  }

  lemma FilterStepOnly<T>(keep: T -> bool, xs: seq<T>, rest: seq<T>, r: seq<T>)
    requires |xs| > 0
    requires forall i :: 0 <= i < |rest| ==> keep(rest[i]) && rest[i] in xs[1..]
    requires r == if keep(xs[0]) then [xs[0]] + rest else rest
    ensures forall i :: 0 <= i < |r| ==> keep(r[i]) && r[i] in xs
  {
    assert xs == [xs[0]] + xs[1..];
    forall i | 0 <= i < |r|
      ensures keep(r[i]) && r[i] in xs
    {
      if keep(xs[0]) && i == 0 {
        assert r[i] == xs[0];
      } else {
        var y := if keep(xs[0]) then rest[i - 1] else rest[i];
        assert r[i] == y && y in xs[1..];
      }
    }
  }

  lemma FilterStepAll<T>(keep: T -> bool, xs: seq<T>, rest: seq<T>, r: seq<T>)
    requires |xs| > 0
    requires forall i :: 0 <= i < |xs| - 1 && keep(xs[1..][i]) ==> xs[1..][i] in rest
    requires r == if keep(xs[0]) then [xs[0]] + rest else rest
    ensures forall i :: 0 <= i < |xs| && keep(xs[i]) ==> xs[i] in r
  {
    forall i | 0 <= i < |xs| && keep(xs[i])
      ensures xs[i] in r
    {
      if i == 0 {
        assert r[0] == xs[0];
      } else {
        assert xs[i] == xs[1..][i - 1];
      }
    }
  }

  lemma FilterStepCount<T(!new)>(keep: T -> bool, xs: seq<T>, rest: seq<T>, r: seq<T>)
    requires |xs| > 0
    requires forall x {:trigger multiset(rest)[x]} :: multiset(rest)[x] == if keep(x) then multiset(xs[1..])[x] else 0
    requires r == if keep(xs[0]) then [xs[0]] + rest else rest
    ensures forall x {:trigger multiset(r)[x]} :: multiset(r)[x] == if keep(x) then multiset(xs)[x] else 0
  {
    assert xs == [xs[0]] + xs[1..];
    assert multiset(xs) == multiset{xs[0]} + multiset(xs[1..]);
    if keep(xs[0]) {
      assert multiset(r) == multiset{xs[0]} + multiset(rest);
    }
  }

  lemma FilterStepOrder<T>(keep: T -> bool, xs: seq<T>, rest: seq<T>, r: seq<T>)
    requires |xs| > 0
    requires IsSubsequence(rest, xs[1..])
    requires forall i :: 0 <= i < |rest| ==> keep(rest[i])
    requires r == if keep(xs[0]) then [xs[0]] + rest else rest
    ensures IsSubsequence(r, xs)
  {
    assert xs == [xs[0]] + xs[1..];
    if keep(xs[0]) {
      SubsequenceKeep(xs[0], rest, xs[1..]);
    } else {
      SubsequenceSkip(xs[0], rest, xs[1..]);
    }
  }
}

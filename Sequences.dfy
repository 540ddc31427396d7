/** Generic sequence folds used by the page-to-text builder: map-and-flatten and first-occurrence de-duplication. */
module Sequences {

  /** Each element contributes `f(x)`, in order (a `forEach` that pushes what `f` yields). */
  function FlatMap<T, U>(xs: seq<T>, f: T -> seq<U>): seq<U> {
    if xs == [] then [] else FlatMap(xs[..|xs| - 1], f) + f(xs[|xs| - 1])
  }

  lemma FlatMapStep<T, U>(xs: seq<T>, i: nat, f: T -> seq<U>)
    requires i < |xs|
    ensures FlatMap(xs[..i + 1], f) == FlatMap(xs[..i], f) + f(xs[i])
  {
    assert xs[..i + 1][..i] == xs[..i];
  }

  /** Everything `FlatMap` yields came from some element: a property every `f(x)` has holds of the whole. */
  lemma {:induction false} FlatMapMembers<T, U>(xs: seq<T>, f: T -> seq<U>, y: U)
    requires y in FlatMap(xs, f)
    ensures exists i :: 0 <= i < |xs| && y in f(xs[i])
    decreases |xs|
  {
    var init := xs[..|xs| - 1];
    if y in FlatMap(init, f) {
      FlatMapMembers(init, f, y);
      var i :| 0 <= i < |init| && y in f(init[i]);
      assert xs[i] == init[i];
    } else {
      assert y in f(xs[|xs| - 1]);
    }
  }

  /** `s` without the later copies of any value: the values a `Set` lets through on first sight. */
  function Dedup<T(==)>(s: seq<T>): seq<T> {
    if s == [] then []
    else
      var seen := Dedup(s[..|s| - 1]);
      if s[|s| - 1] in seen then seen else seen + [s[|s| - 1]]
  }

  predicate NoDuplicates<T(==)>(s: seq<T>) {
    forall i, j :: 0 <= i < j < |s| ==> s[i] != s[j]
  }

  /** Position of the first copy of `x` in `s`. */
  function FirstIndex<T(==)>(s: seq<T>, x: T): (k: nat)
    requires x in s
    ensures k < |s| && s[k] == x && x !in s[..k]
  {
    if s[0] == x then 0 else 1 + FirstIndex(s[1..], x)
  }

  /** Whatever an element contributes shows up in the result. */
  lemma {:induction false} FlatMapIncludes<T, U>(xs: seq<T>, f: T -> seq<U>, i: nat, y: U)
    requires i < |xs| && y in f(xs[i])
    ensures y in FlatMap(xs, f)
    decreases |xs|
  {
    if i < |xs| - 1 {
      assert xs[..|xs| - 1][i] == xs[i];
      FlatMapIncludes(xs[..|xs| - 1], f, i, y);
    }
  }

  /** The de-duplicated sequence holds each value at most once. */
  lemma {:induction false} DedupNoDuplicates<T>(s: seq<T>)
    ensures NoDuplicates(Dedup(s))
    decreases |s|
  {
    if s != [] {
      DedupNoDuplicates(s[..|s| - 1]);
    }
  }

  /** De-duplication loses no value and invents none. */
  lemma {:induction false} DedupSameValues<T>(s: seq<T>)
    ensures forall x :: x in Dedup(s) <==> x in s
    decreases |s|
  {
    if s != [] {
      var init := s[..|s| - 1];
      DedupSameValues(init);
      assert s == init + [s[|s| - 1]];
    }
  }

  /** Values are kept in the order of their first occurrences. */
  lemma {:induction false} DedupFirstOccurrenceOrder<T>(s: seq<T>)
    ensures forall x :: x in Dedup(s) ==> x in s
    ensures forall i, j :: 0 <= i < j < |Dedup(s)| ==> FirstIndex(s, Dedup(s)[i]) < FirstIndex(s, Dedup(s)[j])
    decreases |s|
  {
    DedupSameValues(s);
    if s != [] {
      var init := s[..|s| - 1];
      var last := s[|s| - 1];
      assert s == init + [last];
      DedupFirstOccurrenceOrder(init);
      DedupSameValues(init);
      forall i, j | 0 <= i < j < |Dedup(s)|
        ensures FirstIndex(s, Dedup(s)[i]) < FirstIndex(s, Dedup(s)[j])
      {
        DedupOrderStep(init, last, i, j);
      }
    }
  }

  /** De-duplicating one more value: it is kept exactly when it has not been seen. */
  lemma DedupSnoc<T>(init: seq<T>, last: T)
    ensures Dedup(init + [last]) == if last in Dedup(init) then Dedup(init) else Dedup(init) + [last]
  {
    assert (init + [last])[..|init|] == init;
  }

  /** One step of DedupFirstOccurrenceOrder: appending one value keeps the order of first occurrences. */
  lemma DedupOrderStep<T>(init: seq<T>, last: T, i: nat, j: nat)
    requires forall x :: x in Dedup(init) <==> x in init
    requires i < j < |Dedup(init + [last])|
    requires j < |Dedup(init)| ==> FirstIndex(init, Dedup(init)[i]) < FirstIndex(init, Dedup(init)[j])
    ensures Dedup(init + [last])[i] in init + [last] && Dedup(init + [last])[j] in init + [last]
    ensures FirstIndex(init + [last], Dedup(init + [last])[i]) < FirstIndex(init + [last], Dedup(init + [last])[j])
  {
    var before := Dedup(init);
    DedupSnoc(init, last);
    DedupOldValue(init, last, before, i);
    if j < |before| {
      DedupOldValue(init, last, before, j);
    } else {
      LastFirstIndex(init, last);
    }
  }

  /** A value kept before the last element keeps its value and its first index. */
  lemma DedupOldValue<T>(init: seq<T>, last: T, before: seq<T>, i: nat)
    requires before == Dedup(init) && i < |before|
    requires forall x :: x in before <==> x in init
    ensures var s := init + [last];
            Dedup(s)[i] == before[i] && before[i] in init && FirstIndex(s, before[i]) == FirstIndex(init, before[i])
  {
    DedupSnoc(init, last);
    assert before[i] in before;
    FirstIndexOfExtension(init, [last], before[i]);
  }

  /** A value new to `init` is first found at the end of `init + [last]`. */
  lemma LastFirstIndex<T>(init: seq<T>, last: T)
    requires last !in init
    ensures FirstIndex(init + [last], last) == |init|
  {
  }

  /** Appending never moves the first copy of a value already present. */
  lemma {:induction false} FirstIndexOfExtension<T>(a: seq<T>, b: seq<T>, x: T)
    requires x in a
    ensures FirstIndex(a + b, x) == FirstIndex(a, x)
    decreases |a|
  {
    if a[0] != x {
      assert (a + b)[1..] == a[1..] + b;
      FirstIndexOfExtension(a[1..], b, x);
    }
  }

  /** `xs.filter(keep)`: the elements `keep` accepts, in order. */
  function Filter<T>(xs: seq<T>, keep: T -> bool): (r: seq<T>)
    ensures |r| <= |xs|
  {
    if xs == [] then []
    else Filter(xs[..|xs| - 1], keep) + (if keep(xs[|xs| - 1]) then [xs[|xs| - 1]] else [])
  }

  /** The filter keeps exactly the accepted elements. */
  lemma {:induction false} FilterMembers<T>(xs: seq<T>, keep: T -> bool)
    ensures forall x :: x in Filter(xs, keep) <==> x in xs && keep(x)
    decreases |xs|
  {
    if xs != [] {
      var init := xs[..|xs| - 1];
      FilterMembers(init, keep);
      assert xs == init + [xs[|xs| - 1]];
    }
  }

  lemma FilterSnoc<T>(xs: seq<T>, x: T, keep: T -> bool)
    ensures Filter(xs + [x], keep) == Filter(xs, keep) + if keep(x) then [x] else []
  {
    assert (xs + [x])[..|xs|] == xs;
  }

  /** Filtering works element by element, so it keeps the elements' relative order. */
  lemma {:induction false} FilterAppend<T>(a: seq<T>, b: seq<T>, keep: T -> bool)
    ensures Filter(a + b, keep) == Filter(a, keep) + Filter(b, keep)
    decreases |b|
  {
    if b == [] {
      assert a + b == a;
    } else {
      var init := b[..|b| - 1];
      var last := b[|b| - 1];
      assert b == init + [last];
      assert a + b == (a + init) + [last];
      FilterAppend(a, init, keep);
      FilterSnoc(a + init, last, keep);
      FilterSnoc(init, last, keep);
    }
  }
}

/**
 * First-occurrence de-duplication of display strings: the `if (!list.includes(v)) list.push(v)`
 * pattern the transport rows are built with.
 */
module Dedup {

  predicate NoDuplicates(s: seq<string>) {
    forall i, j :: 0 <= i < j < |s| ==> s[i] != s[j]
  }

  /** Index of the first occurrence of `x` in `xs`, or `|xs|` when there is none. */
  function IndexOf(xs: seq<string>, x: string): (k: nat)
    ensures k <= |xs|
    ensures k < |xs| <==> x in xs
    ensures k < |xs| ==> xs[k] == x
    ensures x !in xs[..k]
  {
    if |xs| == 0 then 0
    else if xs[0] == x then 0
    else
      var k := 1 + IndexOf(xs[1..], x);
      assert xs[..k] == [xs[0]] + xs[1..][..k - 1];
      k
  }

  /** The elements of `r` appear in `r` in the order of their first occurrence in `xs`. */
  predicate InFirstOccurrenceOrder(r: seq<string>, xs: seq<string>) {
    forall i, j :: 0 <= i < j < |r| ==> IndexOf(xs, r[i]) < IndexOf(xs, r[j])
  }

  /**
   * `r` lists every distinct element of `xs` exactly once, ordered by first
   * occurrence in `xs`.
   */
  ghost predicate IsDedupOf(r: seq<string>, xs: seq<string>) {
    && NoDuplicates(r)
    && (forall x :: x in r <==> x in xs)
    && InFirstOccurrenceOrder(r, xs)
  }

  /** One step of the source loop: push `x` unless the list already includes it. */
  function PushIfAbsent(list: seq<string>, x: string): (r: seq<string>)
    ensures x in r
    ensures forall y :: y in r <==> y in list || y == x
    ensures |r| <= |list| + 1
  {
    if x in list then list else list + [x]
  }

  /** Extending `xs` at the end does not move the first occurrence of an element it already holds. */
  lemma IndexOfExtend(xs: seq<string>, x: string, y: string)
    requires y in xs
    ensures IndexOf(xs + [x], y) == IndexOf(xs, y)
  {
    var k := IndexOf(xs, y);
    assert (xs + [x])[k] == y;
    assert (xs + [x])[..k] == xs[..k];
  }

  /** The element `xs` is extended with, when new, first occurs at the end. */
  lemma IndexOfNew(xs: seq<string>, x: string)
    requires x !in xs
    ensures IndexOf(xs + [x], x) == |xs|
  {
    assert (xs + [x])[..|xs|] == xs;
  }

  /** The distinct elements of `xs` in first-occurrence order, as the source loop collects them. */
  function Dedup(xs: seq<string>): (r: seq<string>)
    ensures |r| <= |xs|
  {
    if |xs| == 0 then []
    else
      var init := xs[..|xs| - 1];
      assert xs == init + [xs[|xs| - 1]];
      PushIfAbsent(Dedup(init), xs[|xs| - 1])
  }

  /** `Dedup` lists every distinct element once, in order of first occurrence. */
  lemma {:induction false} DedupCorrect(xs: seq<string>)
    ensures IsDedupOf(Dedup(xs), xs)
  {
    if |xs| > 0 {
      var init := xs[..|xs| - 1];
      DedupCorrect(init);
      DedupStep(Dedup(init), init, xs[|xs| - 1]);
      assert xs == init + [xs[|xs| - 1]];
    }
  }

  /** The source loop's step: de-duplicating one more element pushes it if absent. */
  lemma DedupPrefixStep(xs: seq<string>, i: nat)
    requires i < |xs|
    ensures Dedup(xs[..i + 1]) == PushIfAbsent(Dedup(xs[..i]), xs[i])
  {
    assert xs[..i + 1][..i] == xs[..i];
  }

  /** Two values de-duplicate to one when equal and stay two otherwise. */
  lemma DedupPair(a: string, b: string)
    ensures Dedup([a, b]) == if a == b then [a] else [a, b]
  {
    DedupPrefixStep([a, b], 0);
    DedupPrefixStep([a, b], 1);
    assert [a, b][..0] == [];
    assert [a, b][..2] == [a, b];
  }

  /** Extending the input at the end keeps the first occurrence of every element it already held. */
  lemma IndexOfExtendAll(init: seq<string>, x: string)
    ensures forall y :: y in init ==> IndexOf(init + [x], y) == IndexOf(init, y)
  {
    forall y | y in init
      ensures IndexOf(init + [x], y) == IndexOf(init, y)
    {
      IndexOfExtend(init, x, y);
    }
  }

  /** Pushing a value the list already includes keeps the de-duplication invariant. */
  lemma DedupStepOld(d: seq<string>, init: seq<string>, x: string)
    requires IsDedupOf(d, init) && x in d
    ensures IsDedupOf(d, init + [x])
  {
    var xs := init + [x];
    IndexOfExtendAll(init, x);
    forall i, j | 0 <= i < j < |d|
      ensures IndexOf(xs, d[i]) < IndexOf(xs, d[j])
    {
      assert d[i] in init && d[j] in init;
    }
  }

  /** Pushing a value the list does not include keeps the de-duplication invariant. */
  lemma DedupStepNew(d: seq<string>, init: seq<string>, x: string)
    requires IsDedupOf(d, init) && x !in d
    ensures IsDedupOf(d + [x], init + [x])
  {
    var xs := init + [x];
    var r := d + [x];
    IndexOfExtendAll(init, x);
    IndexOfNew(init, x);
    forall i, j | 0 <= i < j < |r|
      ensures IndexOf(xs, r[i]) < IndexOf(xs, r[j])
    {
      assert r[i] in init;
      if j < |d| {
        assert r[j] in init;
      } else {
        assert IndexOf(init, r[i]) < |init|;
      }
    }
    forall i, j | 0 <= i < j < |r|
      ensures r[i] != r[j]
    {
      if j == |d| {
        assert r[i] in d;
      }
    }
  }

  /** Pushing the next element keeps the de-duplication invariant. */
  lemma DedupStep(d: seq<string>, init: seq<string>, x: string)
    requires IsDedupOf(d, init)
    ensures IsDedupOf(PushIfAbsent(d, x), init + [x])
  {
    if x in d {
      DedupStepOld(d, init, x);
    } else {
      DedupStepNew(d, init, x);
    }
  }

  /** Two repeat-free lists with the same elements, both in first-occurrence order, start alike. */
  lemma SameFirst(r1: seq<string>, r2: seq<string>, xs: seq<string>)
    requires |r1| > 0 && |r2| > 0
    requires forall x :: x in r1 <==> x in r2
    requires forall x :: x in r1 ==> x in xs
    requires InFirstOccurrenceOrder(r1, xs) && InFirstOccurrenceOrder(r2, xs)
    ensures r1[0] == r2[0]
  {
    assert r1[0] in r2 && r2[0] in r1;
  }

  /** Dropping a common first element from repeat-free lists keeps their element sets equal. */
  lemma SameRest(r1: seq<string>, r2: seq<string>)
    requires |r1| > 0 && |r2| > 0 && r1[0] == r2[0]
    requires NoDuplicates(r1) && NoDuplicates(r2)
    requires forall x :: x in r1 <==> x in r2
    ensures forall x :: x in r1[1..] <==> x in r2[1..]
  {
    forall x | x in r1[1..]
      ensures x in r2[1..]
    {
      var i :| 1 <= i < |r1| && r1[i] == x;
      assert x in r2;
      var j :| 0 <= j < |r2| && r2[j] == x;
      assert r2[1..][j - 1] == x;
    }
    forall x | x in r2[1..]
      ensures x in r1[1..]
    {
      var j :| 1 <= j < |r2| && r2[j] == x;
      assert x in r1;
      var i :| 0 <= i < |r1| && r1[i] == x;
      assert r1[1..][i - 1] == x;
    }
  }

  /**
   * A de-duplication of `xs` is unique: any two lists with the same elements,
   * drawn from `xs`, without repeats and in first-occurrence order are equal.
   */
  lemma {:induction false} DedupUnique(r1: seq<string>, r2: seq<string>, xs: seq<string>)
    requires NoDuplicates(r1) && NoDuplicates(r2)
    requires forall x :: x in r1 <==> x in r2
    requires forall x :: x in r1 ==> x in xs
    requires InFirstOccurrenceOrder(r1, xs) && InFirstOccurrenceOrder(r2, xs)
    ensures r1 == r2
    decreases |r1|
  {
    assert |r2| > 0 ==> r2[0] in r2;
    if |r1| > 0 {
      assert r1[0] in r2;
      SameFirst(r1, r2, xs);
      SameRest(r1, r2);
      DedupUnique(r1[1..], r2[1..], xs);
      assert r1 == [r1[0]] + r1[1..];
      assert r2 == [r2[0]] + r2[1..];
    }
  }

  /** `Dedup(xs)` is the only list that satisfies `IsDedupOf(_, xs)`. */
  lemma DedupCharacterization(r: seq<string>, xs: seq<string>)
    ensures IsDedupOf(r, xs) <==> r == Dedup(xs)
  {
    DedupCorrect(xs);
    if IsDedupOf(r, xs) {
      DedupUnique(r, Dedup(xs), xs);
    }
  }

  /** A list without repeats is in its own first-occurrence order. */
  lemma NoDuplicatesOrdered(d: seq<string>)
    requires NoDuplicates(d)
    ensures InFirstOccurrenceOrder(d, d)
  {
    forall i | 0 <= i < |d|
      ensures IndexOf(d, d[i]) == i
    {
      assert d[..i + 1][i] == d[i];
    }
  }

  /** De-duplicating a second time changes nothing. */
  lemma DedupIdempotent(xs: seq<string>)
    ensures Dedup(Dedup(xs)) == Dedup(xs)
  {
    var d := Dedup(xs);
    DedupCorrect(xs);
    DedupCorrect(d);
    NoDuplicatesOrdered(d);
    DedupUnique(d, Dedup(d), d);
  }
}

/** Reordering: sums, selections and flattened batches do not depend on the order. */
module Permutations {
  import opened Sequences

  function Filter<T>(s: seq<T>, keep: T -> bool): seq<T> {
    if s == [] then []
    else Filter(s[..|s| - 1], keep) + (if keep(s[|s| - 1]) then [s[|s| - 1]] else [])
  }

  function Sum(s: seq<real>): real {
    if s == [] then 0.0 else Sum(s[..|s| - 1]) + s[|s| - 1]
  }

  function Map<T, U>(s: seq<T>, f: T -> U): (r: seq<U>)
    ensures |r| == |s|
  {
    seq(|s|, i requires 0 <= i < |s| => f(s[i]))
  }

  lemma FilterLast<T>(s: seq<T>, x: T, keep: T -> bool)
    ensures Filter(s + [x], keep) == Filter(s, keep) + (if keep(x) then [x] else [])
  {
    assert (s + [x])[..|s|] == s;
  }

  lemma {:induction false} FilterCount<T>(s: seq<T>, keep: T -> bool, x: T)
    ensures multiset(Filter(s, keep))[x] == if keep(x) then multiset(s)[x] else 0
  {
    if s != [] {
      FilterCount(s[..|s| - 1], keep, x);
      FrontAndLast(s);
    }
  }

  lemma FilterHas<T>(s: seq<T>, keep: T -> bool, x: T)
    ensures x in Filter(s, keep) <==> x in s && keep(x)
  {
    FilterCount(s, keep, x);
    assert x in Filter(s, keep) <==> multiset(Filter(s, keep))[x] > 0;
    assert x in s <==> multiset(s)[x] > 0;
  }

  lemma {:induction false} FilterAppend<T>(a: seq<T>, b: seq<T>, keep: T -> bool)
    ensures Filter(a + b, keep) == Filter(a, keep) + Filter(b, keep)
  {
    if b == [] {
      assert a + b == a;
    } else {
      FilterAppend(a, b[..|b| - 1], keep);
      assert (a + b)[..|a + b| - 1] == a + b[..|b| - 1];
    }
  }

  lemma SumLast(s: seq<real>, x: real)
    ensures Sum(s + [x]) == Sum(s) + x
  {
    assert (s + [x])[..|s|] == s;
  }

  lemma {:induction false} SumAppend(a: seq<real>, b: seq<real>)
    ensures Sum(a + b) == Sum(a) + Sum(b)
  {
    if b == [] {
      assert a + b == a;
    } else {
      SumAppend(a, b[..|b| - 1]);
      assert (a + b)[..|a + b| - 1] == a + b[..|b| - 1];
    }
  }

  /** A reordering has the first element somewhere, and the others around it. */
  lemma TakeOut<T>(a: seq<T>, b: seq<T>) returns (i: nat)
    requires multiset(a) == multiset(b) && a != []
    ensures i < |b| && b[i] == a[|a| - 1]
    ensures multiset(b[..i] + b[i + 1..]) == multiset(a[..|a| - 1])
  {
    FrontAndLast(a);
    var x := a[|a| - 1];
    assert x in multiset(b);
    i :| 0 <= i < |b| && b[i] == x;
    assert b == b[..i] + [x] + b[i + 1..];
    assert multiset(b[..i] + b[i + 1..]) == multiset(b) - multiset{x};
    assert multiset(a[..|a| - 1]) == multiset(a) - multiset{x};
  }

  lemma {:induction false} SumReordered(a: seq<real>, b: seq<real>)
    requires multiset(a) == multiset(b)
    ensures Sum(a) == Sum(b)
  {
    assert |a| == |multiset(a)| == |multiset(b)| == |b|;
    if a != [] {
      var i := TakeOut(a, b);
      SumReordered(a[..|a| - 1], b[..i] + b[i + 1..]);
      SumAppend(b[..i], b[i + 1..]);
      SumLast(b[..i], b[i]);
      SumAppend(b[..i] + [b[i]], b[i + 1..]);
      assert b == b[..i] + [b[i]] + b[i + 1..];
    }
  }

  lemma {:induction false} MapReordered<T, U>(a: seq<T>, b: seq<T>, f: T -> U)
    requires multiset(a) == multiset(b)
    ensures multiset(Map(a, f)) == multiset(Map(b, f))
    decreases |a|
  {
    assert |a| == |multiset(a)| == |multiset(b)| == |b|;
    if a != [] {
      var i := TakeOut(a, b);
      var rest := b[..i] + b[i + 1..];
      MapReordered(a[..|a| - 1], rest, f);
      assert Map(a, f) == Map(a[..|a| - 1], f) + [f(b[i])];
      assert Map(rest, f) == Map(b[..i], f) + Map(b[i + 1..], f);
      assert Map(b, f) == Map(b[..i], f) + [f(b[i])] + Map(b[i + 1..], f);
    }
  }

  lemma {:induction false} FilterReordered<T>(a: seq<T>, b: seq<T>, keep: T -> bool)
    requires multiset(a) == multiset(b)
    ensures multiset(Filter(a, keep)) == multiset(Filter(b, keep))
    decreases |a|
  {
    hide Filter;
    assert |a| == |multiset(a)| == |multiset(b)| == |b|;
    if a != [] {
      var i := TakeOut(a, b);
      FilterReordered(a[..|a| - 1], b[..i] + b[i + 1..], keep);
      FilterSplit(a[..|a| - 1], b[i], [], keep);
      FilterSplit(b[..i], b[i], b[i + 1..], keep);
      FilterAppend(b[..i], b[i + 1..], keep);
      assert a == a[..|a| - 1] + [b[i]] + [];
      assert b == b[..i] + [b[i]] + b[i + 1..];
    }
  }

  lemma FilterSplit<T>(before: seq<T>, x: T, after: seq<T>, keep: T -> bool)
    ensures multiset(Filter(before + [x] + after, keep))
         == multiset(Filter(before, keep)) + multiset(if keep(x) then [x] else []) + multiset(Filter(after, keep))
    ensures after == [] ==> Filter(after, keep) == []
  {
    FilterAppend(before + [x], after, keep);
    FilterLast(before, x, keep);
  }

  lemma {:induction false} FlattenReordered<T>(a: seq<seq<T>>, b: seq<seq<T>>)
    requires multiset(a) == multiset(b)
    ensures multiset(Flatten(a)) == multiset(Flatten(b))
    decreases |a|
  {
    hide Flatten;
    assert |a| == |multiset(a)| == |multiset(b)| == |b|;
    if a != [] {
      var i := TakeOut(a, b);
      FlattenReordered(a[..|a| - 1], b[..i] + b[i + 1..]);
      FlattenCounts(a[..|a| - 1], b[i], []);
      FlattenCounts(b[..i], b[i], b[i + 1..]);
      assert a == a[..|a| - 1] + [b[i]] + [] && a[..|a| - 1] + [] == a[..|a| - 1];
      assert b == b[..i] + [b[i]] + b[i + 1..];
    }
  }

  /** A part adds its elements, wherever it stands. */
  lemma FlattenCounts<T>(before: seq<seq<T>>, x: seq<T>, after: seq<seq<T>>)
    ensures multiset(Flatten(before + [x] + after)) == multiset(Flatten(before + after)) + multiset(x)
  {
    FlattenSplit(before, x, after);
    FlattenAppend(before, after);
    hide Flatten;
    ThreeParts(Flatten(before), x, Flatten(after));
  }

  lemma ThreeParts<T>(a: seq<T>, x: seq<T>, b: seq<T>)
    ensures multiset(a + x + b) == multiset(a + b) + multiset(x)
  {
  }

  lemma FlattenSplit<T>(before: seq<seq<T>>, x: seq<T>, after: seq<seq<T>>)
    ensures Flatten(before + [x] + after) == Flatten(before) + x + Flatten(after)
  {
    FlattenAppend(before + [x], after);
    FlattenAppend(before, [x]);
    assert Flatten([x]) == x;
  }

  /** Parts of `all`, such that every element is in the part with its number: together they are `all`. */
  ghost predicate Partition<T(!new)>(parts: seq<seq<T>>, all: seq<T>, part: T -> nat) {
    forall x, i :: 0 <= i < |parts| ==>
      multiset(parts[i])[x] == if part(x) == i then multiset(all)[x] else 0
  }

  lemma {:induction false} PartCount<T>(parts: seq<seq<T>>, x: T, home: nat, n: nat)
    requires forall i :: 0 <= i < |parts| ==> multiset(parts[i])[x] == if i == home then n else 0
    ensures multiset(Flatten(parts))[x] == if home < |parts| then n else 0
  {
    if parts != [] {
      if home == 0 {
        PartCount(parts[1..], x, |parts|, n);
      } else {
        PartCount(parts[1..], x, home - 1, n);
      }
    }
  }

  lemma {:induction false} PartitionFlattens<T(!new)>(parts: seq<seq<T>>, all: seq<T>, part: T -> nat)
    requires Partition(parts, all, part)
    requires forall x :: x in all ==> part(x) < |parts|
    ensures multiset(Flatten(parts)) == multiset(all)
  {
    forall x
      ensures multiset(Flatten(parts))[x] == multiset(all)[x]
    {
      PartCount(parts, x, part(x), multiset(all)[x]);
      assert multiset(all)[x] > 0 ==> x in all;
    }
  }

  /** Replaying batches newest first processes the same elements. */
  lemma ReplayReordered<T>(batches: seq<seq<T>>)
    ensures multiset(Flatten(Reverse(batches))) == multiset(Flatten(batches))
  {
    ReverseMultiset(batches);
    FlattenReordered(Reverse(batches), batches);
  }
}

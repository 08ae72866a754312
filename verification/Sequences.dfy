/** Options and the few sequence functions that the other modules share. */
module Sequences {

  datatype Option<+T> = None | Some(value: T)

  datatype Result<+T> = Success(value: T) | Failure {
    predicate IsFailure() {
      Failure?
    }

    function PropagateFailure<U>(): Result<U>
      requires Failure?
    {
      Failure
    }

    function Extract(): T
      requires Success?
    {
      value
    }
  }

  function Reverse<T>(s: seq<T>): seq<T> {
    if s == [] then [] else Reverse(s[1..]) + [s[0]]
  }

  function Flatten<T>(ss: seq<seq<T>>): seq<T> {
    if ss == [] then [] else ss[0] + Flatten(ss[1..])
  }

  /** No element occurs twice. */
  predicate Distinct<T(==)>(s: seq<T>) {
    forall i, j :: 0 <= i < j < |s| ==> s[i] != s[j]
  }

  lemma FrontAndLast<T>(s: seq<T>)
    requires s != []
    ensures s == s[..|s| - 1] + [s[|s| - 1]]
  {
  }

  lemma NoTail<T>(s: seq<T>)
    ensures s + [] == s
  {
  }

  lemma {:induction false} ReverseAppend<T>(a: seq<T>, b: seq<T>)
    ensures Reverse(a + b) == Reverse(b) + Reverse(a)
  {
    if a == [] {
      assert a + b == b;
    } else {
      assert (a + b)[1..] == a[1..] + b;
      ReverseAppend(a[1..], b);
    }
  }

  lemma {:induction false} ReverseMultiset<T>(s: seq<T>)
    ensures multiset(Reverse(s)) == multiset(s)
  {
    if s != [] {
      ReverseMultiset(s[1..]);
      assert s == [s[0]] + s[1..];
    }
  }

  lemma {:induction false} FlattenAppend<T>(a: seq<seq<T>>, b: seq<seq<T>>)
    ensures Flatten(a + b) == Flatten(a) + Flatten(b)
  {
    if a == [] {
      assert a + b == b;
    } else {
      assert (a + b)[1..] == a[1..] + b;
      FlattenAppend(a[1..], b);
    }
  }

  /** Replacing one part exchanges that part's elements and no others. */
  lemma {:induction false} FlattenUpdate<T>(ss: seq<seq<T>>, i: nat, v: seq<T>)
    requires i < |ss|
    ensures multiset(Flatten(ss[i := v])) + multiset(ss[i]) == multiset(Flatten(ss)) + multiset(v)
  {
    if i == 0 {
      assert ss[0 := v][1..] == ss[1..];
      assert multiset(Flatten(ss)) == multiset(ss[0]) + multiset(Flatten(ss[1..]));
    } else {
      assert ss[i := v][1..] == ss[1..][i - 1 := v];
      FlattenUpdate(ss[1..], i - 1, v);
      assert multiset(Flatten(ss[i := v]))
          == multiset(ss[0]) + multiset(Flatten(ss[1..][i - 1 := v]));
      assert multiset(Flatten(ss[i := v])) + multiset(ss[i])
          == multiset(ss[0]) + (multiset(Flatten(ss[1..][i - 1 := v])) + multiset(ss[1..][i - 1]));
    }
  }

  lemma FlattenUpdateCount<T>(ss: seq<seq<T>>, i: nat, v: seq<T>, x: T)
    requires i < |ss|
    ensures multiset(Flatten(ss[i := v]))[x] + multiset(ss[i])[x] == multiset(Flatten(ss))[x] + multiset(v)[x]
  {
    FlattenUpdate(ss, i, v);
    assert (multiset(Flatten(ss[i := v])) + multiset(ss[i]))[x] == (multiset(Flatten(ss)) + multiset(v))[x];
  }

  /** Part by part at most as many occurrences means at most as many in all. */
  lemma {:induction false} FlattenCountAtMost<T>(a: seq<seq<T>>, b: seq<seq<T>>, x: T)
    requires |a| == |b|
    requires forall i :: 0 <= i < |a| ==> multiset(a[i])[x] <= multiset(b[i])[x]
    ensures multiset(Flatten(a))[x] <= multiset(Flatten(b))[x]
  {
    if a != [] {
      forall i | 0 <= i < |a[1..]|
        ensures multiset(a[1..][i])[x] <= multiset(b[1..][i])[x]
      {
        assert a[1..][i] == a[i + 1] && b[1..][i] == b[i + 1];
      }
      FlattenCountAtMost(a[1..], b[1..], x);
    }
  }

  lemma {:induction false} FlattenHas<T>(ss: seq<seq<T>>, x: T)
    ensures x in Flatten(ss) <==> exists i :: 0 <= i < |ss| && x in ss[i]
  {
    if ss != [] {
      FlattenHas(ss[1..], x);
      if x in Flatten(ss[1..]) {
        var i :| 0 <= i < |ss[1..]| && x in ss[1..][i];
        assert x in ss[i + 1];
      }
      if i :| 1 <= i < |ss| && x in ss[i] {
        assert ss[1..][i - 1] == ss[i];
      }
    }
  }
}

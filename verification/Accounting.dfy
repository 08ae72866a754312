/**
 The arithmetic behind the EOF decision: counting records, taking away the
 repeats found by the log search, and what equality with the target means.
 */
module Accounting {
  import opened Messages
  import opened EofRing

  lemma {:induction false} SearchCount(log: seq<ProcessedMessage>, ids: seq<nat>, e: ProcessedMessage)
    ensures multiset(Search(log, ids))[e] == if e.id in ids then multiset(log)[e] else 0
  {
    if log != [] {
      SearchCount(log[..|log| - 1], ids, e);
      assert log == log[..|log| - 1] + [log[|log| - 1]];
    }
  }

  lemma {:induction false} SentOnlyCount(s: seq<ProcessedMessage>, e: ProcessedMessage)
    ensures multiset(SentOnly(s))[e] == if e.sent then multiset(s)[e] else 0
  {
    if s != [] {
      SentOnlyCount(s[1..], e);
      assert s == [s[0]] + s[1..];
    }
  }

  lemma SentOnlyReordered(a: seq<ProcessedMessage>, b: seq<ProcessedMessage>)
    requires multiset(a) == multiset(b)
    ensures multiset(SentOnly(a)) == multiset(SentOnly(b))
  {
    forall e
      ensures multiset(SentOnly(a))[e] == multiset(SentOnly(b))[e]
    {
      SentOnlyCount(a, e);
      SentOnlyCount(b, e);
    }
  }

  lemma {:induction false} SentOnlyAppend(a: seq<ProcessedMessage>, b: seq<ProcessedMessage>)
    ensures SentOnly(a + b) == SentOnly(a) + SentOnly(b)
  {
    if a == [] {
      assert a + b == b;
    } else {
      assert (a + b)[0] == a[0] && (a + b)[1..] == a[1..] + b;
      SentOnlyAppend(a[1..], b);
      var first := if a[0].sent then [a[0]] else [];
      assert (first + SentOnly(a[1..])) + SentOnly(b) == first + (SentOnly(a[1..]) + SentOnly(b));
    }
  }

  ghost function Support(m: multiset<ProcessedMessage>): set<ProcessedMessage> {
    set e | e in m
  }

  /** `a` occurrences when the counters were read and `f` found by the later search
      count as exactly one message. */
  predicate CountsOnce(a: nat, f: nat) {
    if f == 0 then a == 1 else a == f
  }

  /** The corrected count never exceeds the number of kinds, and reaches it exactly
      when every single kind counts once: an aggregate equality is an equality kind by kind. */
  lemma {:induction false} CorrectedCount(kinds: set<ProcessedMessage>,
                                          counted: multiset<ProcessedMessage>,
                                          found: multiset<ProcessedMessage>)
    requires forall e :: e in counted || e in found ==> e in kinds
    requires forall e :: e in kinds ==> counted[e] <= found[e] || counted[e] <= 1
    ensures |counted| - (|found| - |Support(found)|) <= |kinds|
    ensures |counted| - (|found| - |Support(found)|) == |kinds|
       <==> forall e :: e in kinds ==> CountsOnce(counted[e], found[e])
    decreases |kinds|
  {
    if kinds == {} {
      assert counted == multiset{} && found == multiset{};
      assert Support(found) == {};
    } else {
      var x :| x in kinds;
      var rest := kinds - {x};
      var c, f := counted[x := 0], found[x := 0];
      CorrectedCount(rest, c, f);
      assert Support(f) == Support(found) - {x};
      assert |counted| == |c| + counted[x] && |found| == |f| + found[x];
      assert |Support(found)| == |Support(f)| + if found[x] > 0 then 1 else 0;
      assert forall e :: e in kinds <==> e in rest || e == x;
    }
  }

  /** The same statement about the record lists the replicas build. */
  lemma CorrectedListCount(kinds: set<ProcessedMessage>, counted: seq<ProcessedMessage>, found: seq<ProcessedMessage>)
    requires forall e :: e in counted || e in found ==> e in kinds
    requires forall e :: e in kinds ==>
      multiset(counted)[e] <= multiset(found)[e] || multiset(counted)[e] <= 1
    ensures |counted| - Repeats(found) <= |kinds|
    ensures |counted| - Repeats(found) == |kinds|
       <==> forall e :: e in kinds ==> CountsOnce(multiset(counted)[e], multiset(found)[e])
  {
    CorrectedCount(kinds, multiset(counted), multiset(found));
    assert Support(multiset(found)) == Kinds(found);
  }

  /** When every kind counts once, so does every kind whose output was sent: the
      corrected sent count is the number of kinds that emit. */
  lemma CorrectedSentCount(kinds: set<ProcessedMessage>, counted: seq<ProcessedMessage>, found: seq<ProcessedMessage>)
    requires forall e :: e in counted || e in found ==> e in kinds
    requires forall e :: e in kinds ==> CountsOnce(multiset(counted)[e], multiset(found)[e])
    ensures |SentOnly(counted)| - Repeats(SentOnly(found)) == |set e | e in kinds && e.sent|
  {
    var sent := set e | e in kinds && e.sent;
    var c, f := SentOnly(counted), SentOnly(found);
    forall e: ProcessedMessage
      ensures multiset(c)[e] == (if e.sent then multiset(counted)[e] else 0)
      ensures multiset(f)[e] == (if e.sent then multiset(found)[e] else 0)
    {
      SentOnlyCount(counted, e);
      SentOnlyCount(found, e);
    }
    hide SentOnly, Repeats;
    assert forall e :: e in sent <==> e in kinds && e.sent;
    assert forall e :: e in counted <==> multiset(counted)[e] > 0;
    CorrectedAtSent(sent, c, f);
  }

  lemma CorrectedAtSent(sent: set<ProcessedMessage>, c: seq<ProcessedMessage>, f: seq<ProcessedMessage>)
    requires forall e :: multiset(c)[e] > 0 || multiset(f)[e] > 0 ==> e in sent
    requires forall e :: e in sent ==> CountsOnce(multiset(c)[e], multiset(f)[e])
    ensures |c| - Repeats(f) == |sent|
  {
    assert forall e :: e in c <==> multiset(c)[e] > 0;
    assert forall e :: e in f <==> multiset(f)[e] > 0;
    CorrectedListCount(sent, c, f);
  }

  /** Repeats depend on the records found, not on the order the replicas appended them. */
  lemma RepeatsReordered(a: seq<ProcessedMessage>, b: seq<ProcessedMessage>)
    requires multiset(a) == multiset(b)
    ensures Repeats(a) == Repeats(b)
  {
    assert |a| == |multiset(a)| == |b|;
    assert forall e :: e in a <==> e in multiset(a);
    assert forall e :: e in b <==> e in multiset(b);
    assert Kinds(a) == Kinds(b);
  }

  /** R - D <= S always, and R - D == S means that every kind was counted and that the
      corrected sent count is exact. `records` is `found` in the order of the replicas. */
  lemma EqualityMeans(kinds: set<ProcessedMessage>, counted: seq<ProcessedMessage>,
                      found: seq<ProcessedMessage>, records: seq<ProcessedMessage>)
    requires multiset(records) == multiset(found)
    requires forall e :: e in counted || e in found ==> e in kinds
    requires forall e :: e in kinds ==>
      multiset(counted)[e] <= multiset(found)[e] || multiset(counted)[e] <= 1
    ensures |counted| - Repeats(records) <= |kinds|
    ensures |counted| - Repeats(records) == |kinds| ==>
      && |SentOnly(counted)| - Repeats(SentOnly(records)) == |set e | e in kinds && e.sent|
      && forall e :: e in kinds ==> e in counted
  {
    CorrectedListCount(kinds, counted, found);
    RepeatsReordered(records, found);
    if |counted| - Repeats(records) == |kinds| {
      CorrectedSentCount(kinds, counted, found);
      SentOnlyReordered(records, found);
      RepeatsReordered(SentOnly(records), SentOnly(found));
      forall e | e in kinds
        ensures e in counted
      {
        assert CountsOnce(multiset(counted)[e], multiset(found)[e]);
      }
    }
  }
}

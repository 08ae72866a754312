/**
 The other half of EOF safety: late duplicates can delay a decision but not
 prevent it. A round that starts when every message has been saved, and during
 which the replicas handle nothing but the token, succeeds if and only if no
 replica's counter has lost a saved message to a crash.
 */
module EofProgress {
  import opened Sequences
  import opened Messages
  import opened EofRing
  import opened Accounting
  import opened EofStage
  import opened EofSafety
  import opened EofRounds

  /** Every message has been saved at least once, and the EOF is here. */
  ghost predicate Complete(p: Params, st: Stage) {
    && ValidParams(p) && Invariant(p, st) && st.feed.Some? && st.verdict.None?
    && forall x :: x in p.ids ==> Logged(p, st, x) >= 1
  }

  /** Every replica's counter is the number of its saved records. */
  predicate Intact(st: Stage) {
    forall i :: 0 <= i < |st.views| ==> st.views[i].received == |st.views[i].log|
  }

  function Counts(backups: seq<Backup>): (cs: seq<seq<ProcessedMessage>>)
    ensures |cs| == |backups|
  {
    seq(|backups|, i requires 0 <= i < |backups| => backups[i].counted)
  }

  /** What the replicas seen so far count. */
  function CountedBy(backups: seq<Backup>, seen: seq<nat>): seq<seq<ProcessedMessage>> {
    seq(|backups|, i requires 0 <= i < |backups| => if i + 1 in seen then backups[i].counted else [])
  }

  /** What the searches of the replicas seen so far find. */
  function FoundBy(views: seq<View>, seen: seq<nat>, suspects: seq<nat>): seq<seq<ProcessedMessage>> {
    seq(|views|, i requires 0 <= i < |views| => if i + 1 in seen then Search(views[i].log, suspects) else [])
  }

  /** The token describes the present state of the replicas it has seen. */
  ghost predicate UpToDate(p: Params, st: Stage, m: Message)
    requires |st.views| == p.n
  {
    && Fits(p.n, m) && !m.EofFinish?
    && Announced(m) == st.feed
    && match m
       case EofDiscovery(_, _, _, received, _, dups, seen) =>
         received == |Flatten(CountedBy(st.backups, seen))| && Suspected(st.views, seen, dups)
       case EofAggregation(_, _, ds, received, _, dups, seen, records) =>
         && received == |Flatten(Counts(st.backups))| && Suspected(st.views, Everyone(p.n), dups)
         && multiset(records) == multiset(Flatten(FoundBy(st.views, seen, dups + ds)))
       case _ => true
  }

  function Announced(m: Message): Option<Account>
    requires IsToken(m)
  {
    match m
    case Eof(_, s, ds) => Some(Account(s, ds))
    case EofDiscovery(_, s, ds, _, _, _, _) => Some(Account(s, ds))
    case EofAggregation(_, s, ds, _, _, _, _, _) => Some(Account(s, ds))
    case EofFinish(_, _) => None
  }

  ghost predicate Suspected(views: seq<View>, seen: seq<nat>, dups: seq<nat>) {
    forall i, x :: 0 <= i < |views| && i + 1 in seen && x in views[i].duplicates ==> x in dups
  }

  lemma CountedByGrows(backups: seq<Backup>, seen: seq<nat>, i: nat)
    requires i < |backups| && i + 1 !in seen
    ensures |Flatten(CountedBy(backups, seen + [i + 1]))| == |Flatten(CountedBy(backups, seen))| + |backups[i].counted|
  {
    FillPart(CountedBy(backups, seen), i, backups[i].counted);
    assert CountedBy(backups, seen)[i := backups[i].counted] == CountedBy(backups, seen + [i + 1]);
  }

  lemma FoundByGrows(views: seq<View>, seen: seq<nat>, suspects: seq<nat>, i: nat)
    requires i < |views| && i + 1 !in seen
    ensures multiset(Flatten(FoundBy(views, seen + [i + 1], suspects)))
         == multiset(Flatten(FoundBy(views, seen, suspects)) + Search(views[i].log, suspects))
  {
    var before, after := FoundBy(views, seen, suspects), FoundBy(views, seen + [i + 1], suspects);
    var more := Search(views[i].log, suspects);
    assert before[i := more] == after by {
      forall j | 0 <= j < |views|
        ensures before[i := more][j] == after[j]
      {
        assert j + 1 in seen + [i + 1] <==> j + 1 in seen || j == i;
      }
    }
    FillPart(before, i, more);
  }

  lemma AllSeen(st: Stage, seen: seq<nat>, suspects: seq<nat>, dups: seq<nat>)
    requires |st.views| == |st.backups| && SeenOk(|st.views|, seen) && |seen| == |st.views|
    ensures CountedBy(st.backups, seen) == Counts(st.backups)
    ensures FoundBy(st.views, seen, suspects) == FoundBy(st.views, Everyone(|st.views|), suspects)
    ensures Suspected(st.views, seen, dups) ==> Suspected(st.views, Everyone(|st.views|), dups)
  {
    FullCircle(|st.views|, seen);
    forall r | 1 <= r <= |st.views|
      ensures r in seen && r in Everyone(|st.views|)
    {
      assert Everyone(|st.views|)[r - 1] == r;
    }
  }

  /** Nothing counted and nothing found before the first replica. */
  lemma NobodySeen(st: Stage, suspects: seq<nat>)
    ensures Flatten(CountedBy(st.backups, [])) == [] && Flatten(FoundBy(st.views, [], suspects)) == []
  {
    NothingFlat<ProcessedMessage>(|st.backups|);
    NothingFlat<ProcessedMessage>(|st.views|);
    assert CountedBy(st.backups, []) == seq<seq<ProcessedMessage>>(|st.backups|, _ => []);
    assert FoundBy(st.views, [], suspects) == seq<seq<ProcessedMessage>>(|st.views|, _ => []);
  }

  // ---------- the decision of a quiet round ----------

  lemma {:induction false} FoundCount(views: seq<View>, suspects: seq<nat>, e: ProcessedMessage)
    ensures multiset(Flatten(FoundBy(views, Everyone(|views|), suspects)))[e]
         == if e.id in suspects then multiset(Flatten(Logs(views)))[e] else 0
  {
    var found, logs := FoundBy(views, Everyone(|views|), suspects), Logs(views);
    forall i | 0 <= i < |views|
      ensures multiset(found[i])[e] == if e.id in suspects then multiset(logs[i])[e] else 0
    {
      assert Everyone(|views|)[i] == i + 1;
      SearchCount(views[i].log, suspects, e);
    }
    if e.id in suspects {
      FlattenCountAtMost(found, logs, e);
      FlattenCountAtMost(logs, found, e);
    } else {
      NothingFlat<ProcessedMessage>(|views|);
      FlattenCountAtMost(found, seq<seq<ProcessedMessage>>(|views|, _ => []), e);
    }
  }

  ghost function CountedTimes(p: Params, st: Stage, x: nat): nat {
    multiset(Flatten(Counts(st.backups)))[Entry(p, x)]
  }

  ghost function FoundTimes(p: Params, st: Stage, suspects: seq<nat>, x: nat): nat {
    multiset(Flatten(FoundBy(st.views, Everyone(p.n), suspects)))[Entry(p, x)]
  }

  lemma CountedAtMostLogged(p: Params, st: Stage, x: nat)
    requires Books(p, st)
    ensures CountedTimes(p, st, x) <= Logged(p, st, x)
  {
    hide CountersBooks, IsEntry;
    forall i | 0 <= i < p.n
      ensures multiset(st.backups[i].counted)[Entry(p, x)] <= multiset(st.views[i].log)[Entry(p, x)]
    {
      assert NodeBooks(p, NodeOf(st, i), st.verdict.None?);
      CountedInLog(p, NodeOf(st, i), st.verdict.None?);
    }
    FlattenCountAtMost(Counts(st.backups), Logs(st.views), Entry(p, x));
  }

  lemma CountedInLog(p: Params, n: Node, open: bool)
    requires NodeBooks(p, n, open)
    ensures n.view.received == |n.backup.counted| && multiset(n.backup.counted) <= multiset(n.view.log)
  {
  }

  /** A message counts once if and only if each of its saves is counted: a suspect is found
      as often as it was saved, and any other message that is counted at all was saved once. */
  lemma CountsOnceExactly(p: Params, st: Stage, dups: seq<nat>, x: nat)
    requires Complete(p, st) && x in p.ids && Suspected(st.views, Everyone(p.n), dups)
    ensures var c, f := CountedTimes(p, st, x), FoundTimes(p, st, dups + st.feed.value.duplicates, x);
      (CountsOnce(c, f) <==> c == Logged(p, st, x)) && (c <= f || c <= 1)
  {
    var suspects := dups + st.feed.value.duplicates;
    assert Logged(p, st, x) >= 1;
    CountedAtMostLogged(p, st, x);
    FoundCount(st.views, suspects, Entry(p, x));
    if x !in suspects && CountedTimes(p, st, x) > 0 {
      UnsuspectedSavedOnce(p, st, dups, x);
    }
    hide Invariant, Suspected, Flatten;
  }

  /** A message that is counted and suspected by nobody was saved once and is over. */
  lemma UnsuspectedSavedOnce(p: Params, st: Stage, dups: seq<nat>, x: nat)
    requires Complete(p, st) && x in p.ids && Suspected(st.views, Everyone(p.n), dups)
    requires x !in dups + st.feed.value.duplicates && CountedTimes(p, st, x) > 0
    ensures Retired(p, st, x)
  {
    assert Concluded(p, st);
    hide Custody, Concluded, TokenOk, Settled, Retired, Logged, NodeBooks;
    AtMostOneArrival(p, st, x);
    assert Entry(p, x) in Flatten(Counts(st.backups));
    FlattenHas(Counts(st.backups), Entry(p, x));
    var i :| 0 <= i < |Counts(st.backups)| && Entry(p, x) in Counts(st.backups)[i];
    assert Everyone(p.n)[i] == i + 1;
    CountedAndOver(p, st, i, x);
  }

  lemma AtMostOneArrival(p: Params, st: Stage, x: nat)
    requires Fed(p, st) && st.feed.Some? && x !in st.feed.value.duplicates
    ensures st.arrived[x] <= 1
  {
    assert st.arrived[x] >= 2 ==> x in st.arrived;
  }

  lemma CountedAndOver(p: Params, st: Stage, i: nat, x: nat)
    requires i < |st.views| == |st.backups| && Concluded(p, st) && st.arrived[x] <= 1
    requires Entry(p, x) in st.backups[i].counted && x !in st.views[i].duplicates
    ensures Retired(p, st, x)
  {
    hide Retired;
    assert NodeOver(p, st, NodeOf(st, i));
    assert Entry(p, x).id == x;
  }

  lemma LoggedEntry(p: Params, st: Stage, e: ProcessedMessage)
    requires Books(p, st) && e in Flatten(Logs(st.views))
    ensures e in Entries(p, p.ids)
  {
    hide CountersBooks;
    FlattenHas(Logs(st.views), e);
    var i :| 0 <= i < |Logs(st.views)| && e in Logs(st.views)[i];
    assert NodeBooks(p, NodeOf(st, i), st.verdict.None?) && e in st.views[i].log;
    assert IsEntry(p, e);
  }

  lemma CountedEntry(p: Params, st: Stage, e: ProcessedMessage)
    requires Books(p, st) && e in Flatten(Counts(st.backups))
    ensures e in Entries(p, p.ids)
  {
    hide CountersBooks;
    FlattenHas(Counts(st.backups), e);
    var i :| 0 <= i < |Counts(st.backups)| && e in Counts(st.backups)[i];
    assert NodeBooks(p, NodeOf(st, i), st.verdict.None?);
    CountedInLog(p, NodeOf(st, i), st.verdict.None?);
    SnappedIsEntry(p, st, st.backups[i].counted, i, e);
    EntryOf(p, e);
  }

  lemma QuietEntries(p: Params, st: Stage, suspects: seq<nat>)
    requires Books(p, st)
    ensures forall e :: e in Flatten(Counts(st.backups)) || e in Flatten(FoundBy(st.views, Everyone(p.n), suspects)) ==>
      e in Entries(p, p.ids)
  {
    var counted, found := Flatten(Counts(st.backups)), Flatten(FoundBy(st.views, Everyone(p.n), suspects));
    forall e | e in counted || e in found
      ensures e in Entries(p, p.ids)
    {
      if e in counted {
        CountedEntry(p, st, e);
      } else {
        FoundCount(st.views, suspects, e);
        assert multiset(found)[e] > 0 && e in multiset(Flatten(Logs(st.views)));
        LoggedEntry(p, st, e);
      }
    }
  }

  /** Part by part at most as many, and in all as many, means part by part as many. */
  lemma {:induction false} FlattenTight<T>(a: seq<seq<T>>, b: seq<seq<T>>, x: T, i: nat)
    requires |a| == |b| && i < |a|
    requires forall j :: 0 <= j < |a| ==> multiset(a[j])[x] <= multiset(b[j])[x]
    requires multiset(Flatten(a))[x] == multiset(Flatten(b))[x]
    ensures multiset(a[i])[x] == multiset(b[i])[x]
  {
    assert forall j :: 0 <= j < |a[1..]| ==> a[1..][j] == a[j + 1] && b[1..][j] == b[j + 1];
    FlattenCountAtMost(a[1..], b[1..], x);
    if i > 0 {
      FlattenTight(a[1..], b[1..], x, i - 1);
    }
  }

  /** All saves are counted if and only if every counter is the size of its log. */
  lemma AllCountedIsIntact(p: Params, st: Stage)
    requires Books(p, st)
    ensures (forall x :: x in p.ids ==> CountedTimes(p, st, x) == Logged(p, st, x)) <==> Intact(st)
  {
    hide NodeBooks, Flatten;
    if Intact(st) {
      forall i | 0 <= i < p.n
        ensures multiset(st.backups[i].counted) == multiset(st.views[i].log)
      {
        IntactNode(p, st, i);
      }
      forall x
        ensures CountedTimes(p, st, x) == Logged(p, st, x)
      {
        FlattenCountAtMost(Counts(st.backups), Logs(st.views), Entry(p, x));
        FlattenCountAtMost(Logs(st.views), Counts(st.backups), Entry(p, x));
      }
    }
    if forall x :: x in p.ids ==> CountedTimes(p, st, x) == Logged(p, st, x) {
      forall i | 0 <= i < p.n
        ensures st.views[i].received == |st.views[i].log|
      {
        AllCountedNode(p, st, i);
      }
    }
  }

  lemma IntactNode(p: Params, st: Stage, i: nat)
    requires Books(p, st) && i < p.n && st.views[i].received == |st.views[i].log|
    ensures multiset(st.backups[i].counted) == multiset(st.views[i].log)
  {
    hide NodeBooks;
    assert NodeBooks(p, NodeOf(st, i), st.verdict.None?);
    CountedInLog(p, NodeOf(st, i), st.verdict.None?);
    var c, l := multiset(st.backups[i].counted), multiset(st.views[i].log);
    assert |c| == |l| && l == c + (l - c);
    assert |l| == |c| + |l - c|;
  }

  lemma AllCountedNode(p: Params, st: Stage, i: nat)
    requires Books(p, st) && i < p.n
    requires forall x :: x in p.ids ==> CountedTimes(p, st, x) == Logged(p, st, x)
    ensures st.views[i].received == |st.views[i].log|
  {
    var c, l := multiset(st.backups[i].counted), multiset(st.views[i].log);
    assert NodeBooks(p, NodeOf(st, i), st.verdict.None?);
    CountedInLog(p, NodeOf(st, i), st.verdict.None?);
    hide CountersBooks, Flatten;
    forall e: ProcessedMessage
      ensures c[e] == l[e]
    {
      if e in st.views[i].log {
        assert IsEntry(p, e) && e == Entry(p, e.id);
        EachPartAtMost(p, st, e);
        FlattenTight(Counts(st.backups), Logs(st.views), e, i);
      } else {
        assert l[e] == 0;
      }
    }
    assert c == l;
    assert |c| == |st.backups[i].counted| && |l| == |st.views[i].log|;
  }

  lemma EachPartAtMost(p: Params, st: Stage, e: ProcessedMessage)
    requires Books(p, st)
    ensures forall j :: 0 <= j < p.n ==>
      multiset(Counts(st.backups)[j])[e] <= multiset(Logs(st.views)[j])[e]
  {
    hide NodeBooks;
    forall j | 0 <= j < p.n
      ensures multiset(Counts(st.backups)[j])[e] <= multiset(Logs(st.views)[j])[e]
    {
      assert NodeBooks(p, NodeOf(st, j), st.verdict.None?);
      CountedInLog(p, NodeOf(st, j), st.verdict.None?);
    }
  }

  lemma EachCountsOnce(p: Params, st: Stage, dups: seq<nat>)
    requires Complete(p, st) && Suspected(st.views, Everyone(p.n), dups)
    ensures var counted := multiset(Flatten(Counts(st.backups)));
      var found := multiset(Flatten(FoundBy(st.views, Everyone(p.n), dups + st.feed.value.duplicates)));
      && (forall e :: e in Entries(p, p.ids) ==> counted[e] <= found[e] || counted[e] <= 1)
      && ((forall e :: e in Entries(p, p.ids) ==> CountsOnce(counted[e], found[e]))
          <==> forall x :: x in p.ids ==> CountedTimes(p, st, x) == Logged(p, st, x))
  {
    assert st.feed.Some?;
    hide Complete, Suspected, Flatten, Logged, CountsOnce;
    forall x | x in p.ids
      ensures var c, f := CountedTimes(p, st, x), FoundTimes(p, st, dups + st.feed.value.duplicates, x);
        (CountsOnce(c, f) <==> c == Logged(p, st, x)) && (c <= f || c <= 1)
      ensures Entry(p, x) in Entries(p, p.ids)
    {
      CountsOnceExactly(p, st, dups, x);
    }
  }

  /** The equality holds at the end of a quiet round if and only if every counter is intact. */
  lemma QuietDecision(p: Params, st: Stage, received: int, dups: seq<nat>, records: seq<ProcessedMessage>)
    requires Complete(p, st) && Suspected(st.views, Everyone(p.n), dups)
    requires received == |Flatten(Counts(st.backups))|
    requires multiset(records)
          == multiset(Flatten(FoundBy(st.views, Everyone(p.n), dups + st.feed.value.duplicates)))
    ensures received - Repeats(records) == |p.ids| <==> Intact(st)
  {
    var found := Flatten(FoundBy(st.views, Everyone(p.n), dups + st.feed.value.duplicates));
    hide Custody, TokenOk, Fed, Settled, Books, Suspected, Repeats, Flatten, CountsOnce, Intact;
    QuietEntries(p, st, dups + st.feed.value.duplicates);
    EachCountsOnce(p, st, dups);
    CorrectedListCount(Entries(p, p.ids), Flatten(Counts(st.backups)), found);
    RepeatsReordered(records, found);
    EntriesCount(p, p.ids);
    AllCountedIsIntact(p, st);
  }

  // ---------- the hops of a quiet round ----------

  /** One more search joins what the token has found. */
  lemma QuietSearch(p: Params, st: Stage, i: nat, m: Message)
    requires |st.views| == p.n && i < p.n && m.EofAggregation?
    requires UpToDate(p, st, m) && i + 1 !in m.replicaIdSeen
    ensures var n := UpdateAggregation(ConfigOf(p, i), st.views[i], m);
      && SeenOk(p.n, n.replicaIdSeen)
      && multiset(n.processedBy)
         == multiset(Flatten(FoundBy(st.views, n.replicaIdSeen, m.possibleDuplicates + m.originalPossibleDuplicates)))
  {
    hide FoundBy, Flatten, Suspected, Search;
    var suspects := m.possibleDuplicates + m.originalPossibleDuplicates;
    SeenGrows(p.n, m.replicaIdSeen, i + 1);
    hide SeenOk;
    FoundByGrows(st.views, m.replicaIdSeen, suspects, i);
    RecordsGrow(m.processedBy, Flatten(FoundBy(st.views, m.replicaIdSeen, suspects)),
                Search(st.views[i].log, suspects));
  }

  /** The last search completes the records, and the equality holds. */
  lemma QuietEnd(p: Params, st: Stage, i: nat, m: Message, records: seq<ProcessedMessage>)
    requires Complete(p, st) && |st.views| == |st.backups| == p.n && i < p.n && m.EofAggregation? && UpToDate(p, st, m)
    requires i + 1 !in m.replicaIdSeen && |m.replicaIdSeen| + 1 == p.n && SeenOk(p.n, m.replicaIdSeen + [i + 1])
    requires var suspects := m.possibleDuplicates + m.originalPossibleDuplicates;
      multiset(records) == multiset(Flatten(FoundBy(st.views, m.replicaIdSeen + [i + 1], suspects)))
    ensures m.originalMessagesSent == |p.ids|
    ensures m.messagesReceived - Repeats(records) == |p.ids| <==> Intact(st)
  {
    hide Repeats, FoundBy, Books, Custody, TokenOk, Settled, SeenOk;
    var suspects := m.possibleDuplicates + m.originalPossibleDuplicates;
    AllSeen(st, m.replicaIdSeen + [i + 1], suspects, m.possibleDuplicates);
    QuietDecision(p, st, m.messagesReceived, m.possibleDuplicates, records);
  }

  lemma LastAggregation(p: Params, st: Stage, i: nat, m: Message)
    requires Complete(p, st) && |st.views| == |st.backups| == p.n && i < p.n && m.EofAggregation?
    requires UpToDate(p, st, m) && i + 1 !in m.replicaIdSeen && |m.replicaIdSeen| + 1 == p.n
    ensures var h := HandleAggregation(ConfigOf(p, i), st.views[i], m);
      h.ack && if Intact(st) then h.verdict.Some? else h.verdict.None?
  {
    hide Complete, FoundBy, HandleAggregation, Repeats, Flatten, Suspected, Search;
    QuietSearch(p, st, i, m);
    var records := UpdateAggregation(ConfigOf(p, i), st.views[i], m).processedBy;
    hide SeenOk, UpdateAggregation, UpToDate;
    QuietEnd(p, st, i, m, records);
    AggregationDecides(p, i, st.views[i], m, records);
  }

  lemma MoreAggregation(p: Params, st: Stage, i: nat, m: Message)
    requires |st.views| == |st.backups| == p.n && i < p.n && m.EofAggregation?
    requires UpToDate(p, st, m) && i + 1 !in m.replicaIdSeen && |m.replicaIdSeen| + 1 != p.n
    ensures var h := HandleAggregation(ConfigOf(p, i), st.views[i], m);
      |m.replicaIdSeen| + 1 < p.n && h.out != [] && UpToDate(p, st, h.out[0]) && h.view == st.views[i]
  {
    hide FoundBy, HandleAggregation, Flatten, Suspected, Search;
    QuietSearch(p, st, i, m);
    hide SeenOk;
    AggregationForwards(p, i, st.views[i], m);
  }

  lemma QuietAggregation(p: Params, st: Stage, i: nat, m: Message)
    requires Complete(p, st) && |st.views| == |st.backups| == p.n && i < p.n && m.EofAggregation?
    requires UpToDate(p, st, m) && i + 1 !in m.replicaIdSeen
    ensures var h := HandleAggregation(ConfigOf(p, i), st.views[i], m);
      if |m.replicaIdSeen| + 1 < p.n then h.out != [] && UpToDate(p, st, h.out[0]) && h.view == st.views[i]
      else h.ack && if Intact(st) then h.verdict.Some? else h.verdict.None?
  {
    hide Complete, HandleAggregation, UpToDate, Intact, ConfigOf;
    if |m.replicaIdSeen| + 1 == p.n {
      LastAggregation(p, st, i, m);
    } else {
      MoreAggregation(p, st, i, m);
    }
  }

  /** When discovery is over, the aggregation token starts up to date. */
  lemma QuietTurn(p: Params, st: Stage, n: Message)
    requires |st.views| == |st.backups| == p.n > 0 && n.EofDiscovery?
    requires SeenOk(p.n, n.replicaIdSeen) && |n.replicaIdSeen| == p.n
    requires Announced(n) == st.feed
    requires n.messagesReceived == |Flatten(CountedBy(st.backups, n.replicaIdSeen))|
    requires Suspected(st.views, n.replicaIdSeen, n.possibleDuplicates)
    ensures UpToDate(p, st, ToAggregation(n))
  {
    AllSeen(st, n.replicaIdSeen, [], n.possibleDuplicates);
    NobodySeen(st, n.possibleDuplicates + n.originalPossibleDuplicates);
  }

  /** Discovery at one more replica keeps the token up to date. */
  lemma QuietSnapshot(p: Params, st: Stage, i: nat, m: Message)
    requires |st.views| == |st.backups| == p.n && i < p.n && m.EofDiscovery?
    requires UpToDate(p, st, m) && i + 1 !in m.replicaIdSeen
    ensures var n := UpdateDiscovery(ConfigOf(p, i), st.views[i], m);
      && SeenOk(p.n, n.replicaIdSeen) && Announced(n) == st.feed
      && n.messagesReceived
         == |Flatten(CountedBy(st.backups, n.replicaIdSeen))| + st.views[i].received - |st.backups[i].counted|
      && Suspected(st.views, n.replicaIdSeen, n.possibleDuplicates)
  {
    CountedByGrows(st.backups, m.replicaIdSeen, i);
    SeenGrows(p.n, m.replicaIdSeen, i + 1);
  }

  lemma QuietDiscovery(p: Params, st: Stage, i: nat, m: Message)
    requires Complete(p, st) && i < p.n && m.EofDiscovery?
    requires UpToDate(p, st, m) && i + 1 !in m.replicaIdSeen
    ensures var h := HandleDiscovery(ConfigOf(p, i), st.views[i], m);
      if Remaining(p.n, m) > 1 then h.out != [] && UpToDate(p, st, h.out[0]) && h.view == st.views[i]
      else h.ack && if Intact(st) then h.verdict.Some? else h.verdict.None?
  {
    var n := UpdateDiscovery(ConfigOf(p, i), st.views[i], m);
    QuietSnapshot(p, st, i, m);
    assert NodeBooks(p, NodeOf(st, i), st.verdict.None?);
    if |n.replicaIdSeen| == p.n {
      QuietTurn(p, st, n);
      QuietAggregation(p, st, i, ToAggregation(n));
    } else {
      assert UpToDate(p, st, n);
    }
  }

  lemma QuietHandle(p: Params, st: Stage, i: nat, m: Message)
    requires Complete(p, st) && i < p.n && UpToDate(p, st, m) && i + 1 !in Seen(m)
    ensures var h := Handle(ConfigOf(p, i), st.views[i], m);
      if Remaining(p.n, m) > 1 then h.out != [] && UpToDate(p, st, h.out[0]) && h.view == st.views[i]
      else h.ack && if Intact(st) then h.verdict.Some? else h.verdict.None?
  {
    match m {
      case Eof(_, _, _) =>
        NobodySeen(st, []);
        QuietDiscovery(p, st, i, ToDiscovery(m));
      case EofDiscovery(_, _, _, _, _, _, _) => QuietDiscovery(p, st, i, m);
      case EofAggregation(_, _, _, _, _, _, _, _) => QuietAggregation(p, st, i, m);
    }
  }

  /** One accepted hop of a quiet round: it goes on, up to date, until it succeeds. */
  lemma QuietHop(p: Params, st: Stage, i: nat)
    requires Complete(p, st) && i < p.n && st.token.Some? && UpToDate(p, st, st.token.value)
    requires i + 1 !in Seen(st.token.value)
    ensures var st' := Next(p, st, TokenHop(i));
      if Remaining(p.n, st.token.value) > 1 then
        && Complete(p, st') && st'.token.Some? && UpToDate(p, st', st'.token.value)
        && Remaining(p.n, st'.token.value) == Remaining(p.n, st.token.value) - 1
        && (Intact(st') <==> Intact(st))
      else st'.verdict.Some? <==> Intact(st)
  {
    var m, st' := st.token.value, Next(p, st, TokenHop(i));
    var h := Handle(ConfigOf(p, i), st.views[i], m);
    HopInvariant(p, st, i);
    HopStep(ConfigOf(p, i), st.views[i], m);
    QuietHandle(p, st, i, m);
    if Remaining(p.n, m) > 1 {
      QuietForward(p, st, i, h);
    }
  }

  /** The forwarded token is as up to date as it was: no replica has changed. */
  lemma QuietForward(p: Params, st: Stage, i: nat, h: Hop)
    requires Complete(p, st) && i < p.n && h.view == st.views[i] && h.out != [] && h.verdict.None?
    requires UpToDate(p, st, h.out[0]) && Invariant(p, Applied(st, i, h))
    ensures var st' := Applied(st, i, h);
      && Complete(p, st') && st'.token == Some(h.out[0]) && UpToDate(p, st', h.out[0])
      && (Intact(st') <==> Intact(st))
  {
    assert st.views[i := h.view] == st.views;
    SameRecords(p, st, Applied(st, i, h));
  }

  /** The replicas that accept the token, in turn; refused deliveries change nothing. */
  ghost predicate Accepting(p: Params, st: Stage, hops: seq<nat>)
    decreases |hops|
  {
    hops == [] ||
    (&& Enabled(p, st, TokenHop(hops[0])) && hops[0] + 1 !in Seen(st.token.value)
     && Accepting(p, Next(p, st, TokenHop(hops[0])), hops[1..]))
  }

  ghost function Hops(p: Params, st: Stage, hops: seq<nat>): Stage
    requires Accepting(p, st, hops)
    decreases |hops|
  {
    if hops == [] then st else Hops(p, Next(p, st, TokenHop(hops[0])), hops[1..])
  }

  lemma QuietSize(p: Params, st: Stage)
    requires Complete(p, st) && st.token.Some? && UpToDate(p, st, st.token.value)
    ensures p.n > 0 && |st.views| == p.n && IsToken(st.token.value) && Remaining(p.n, st.token.value) > 0
  {
    hide Custody, TokenOk, Fed, Settled, NodeBooks, Flatten;
  }

  lemma FirstHop(p: Params, st: Stage, hops: seq<nat>)
    requires Accepting(p, st, hops) && hops != []
    ensures Enabled(p, st, TokenHop(hops[0])) && hops[0] < |st.views| && hops[0] + 1 !in Seen(st.token.value)
    ensures var st' := Next(p, st, TokenHop(hops[0]));
      && |st'.views| == |st.views| && Accepting(p, st', hops[1..])
      && Hops(p, st, hops) == Hops(p, st', hops[1..])
      && (|hops| == 1 ==> Hops(p, st, hops) == st')
  {
    hide Handle;
  }

  /** When everything has been saved and the replicas handle only the token, the round that
      is up to date decides after exactly the accepted hops it has left (from a fresh EOF
      2n-1), and it succeeds if and only if no counter has lost a saved message. */
  lemma {:induction false} QuietRound(p: Params, st: Stage, hops: seq<nat>)
    requires Complete(p, st) && st.token.Some? && UpToDate(p, st, st.token.value)
    requires Accepting(p, st, hops) && |hops| == Remaining(p.n, st.token.value)
    ensures Hops(p, st, hops).verdict.Some? <==> Intact(st)
    decreases |hops|
  {
    hide Complete, Intact, UpToDate, Next, Enabled, Accepting, Hops, Remaining, Seen;
    QuietSize(p, st);
    FirstHop(p, st, hops);
    QuietHop(p, st, hops[0]);
    if |hops| > 1 {
      QuietRound(p, Next(p, st, TokenHop(hops[0])), hops[1..]);
    }
  }

  /** A fresh EOF token is up to date. */
  lemma FreshRound(p: Params, st: Stage, hops: seq<nat>)
    requires Complete(p, st) && st.token.Some? && st.token.value.Eof?
    requires Accepting(p, st, hops) && |hops| == 2 * p.n - 1
    ensures Hops(p, st, hops).verdict.Some? <==> Intact(st)
  {
    QuietRound(p, st, hops);
  }

  // ---------- when a counter loses a message ----------

  /** Checked before the event: the state to go back to has counted as much as the one in use. */
  predicate Lossless(st: Stage, ev: Event)
    requires |st.views| == |st.backups|
  {
    match ev
    case Deliver(i, _, CrashBeforeSave(_)) =>
      i < |st.views| ==> st.backups[i].committed.received == st.views[i].received
    case OtherClient(i, CrashBeforeSave(_)) =>
      i < |st.views| ==> st.backups[i].committed.received == st.views[i].received
    case Restart(i) => i < |st.views| ==> st.backups[i].restart.received == st.views[i].received
    case _ => true
  }

  predicate IntactView(v: View) {
    v.received == |v.log|
  }

  /** The one replica that an event is about. */
  lemma OneNode(st: Stage, i: nat, n: Node)
    requires i < |st.views| == |st.backups| && Intact(st)
    ensures Intact(WithNode(st, i, n)) <==> IntactView(n.view)
  {
    assert WithNode(st, i, n).views[i] == n.view;
  }

  /** Counters stay intact if and only if no crash goes back to a state that had counted less. */
  lemma IntactExactly(p: Params, st: Stage, ev: Event)
    requires ValidParams(p) && |st.views| == |st.backups| && Intact(st) && Enabled(p, st, ev)
    ensures Intact(Next(p, st, ev)) <==> Lossless(st, ev)
  {
    match ev
    case Deliver(i, d, outcome) =>
      OneNode(st, i, NodeAfter(NodeOf(st, i), d.id, d.redelivered, Sends(p, d.id), outcome));
    case Restart(i) => OneNode(st, i, Restarted(NodeOf(st, i)));
    case OtherClient(i, outcome) => OneNode(st, i, NodeAside(NodeOf(st, i), outcome));
    case TokenHop(i) => HopKeepsCounts(ConfigOf(p, i), st.views[i], st.token.value);
    case _ =>
  }

  /** A token changes no counter of received messages. */
  lemma HopKeepsCounts(cfg: Config, v: View, m: Message)
    requires IsToken(m)
    ensures Handle(cfg, v, m).view.received == v.received && Handle(cfg, v, m).view.log == v.log
  {
  }
}

/**
 Two tokens for one EOF. A replica that crashes after publishing the next token and
 before acknowledging the old one leaves both on the broker. What an undisturbed round
 decides is a function of the replicas' views, in whatever order they are visited; and
 as the deciding replica overwrites its own counter, a second round over the same views
 announces another number.
 */
module EofTwice {
  import opened Sequences
  import opened Messages
  import opened Permutations
  import opened EofRing
  import opened Accounting
  import opened EofStage
  import opened EofSafety
  import opened EofRounds
  import opened EofProgress

  const NOBODY := View(0, 0, [], [], [])

  function At(views: seq<View>, r: nat): View {
    if 1 <= r <= |views| then views[r - 1] else NOBODY
  }

  // ---------- what a list of replicas adds up to ----------

  function Total(views: seq<View>, seen: seq<nat>, count: View -> int): int {
    if seen == [] then 0 else Total(views, seen[..|seen| - 1], count) + count(At(views, seen[|seen| - 1]))
  }

  function Received(): View -> int { (v: View) => v.received }

  function Sent(): View -> int { (v: View) => v.sent }

  function Suspects(views: seq<View>, seen: seq<nat>): seq<nat> {
    Flatten(Map(seen, (r: nat) => At(views, r).duplicates))
  }

  /** A replica with the catcher is not searched. */
  function Found(cfg: Config, views: seq<View>, seen: seq<nat>, suspects: seq<nat>): seq<ProcessedMessage> {
    if cfg.catcher then [] else Flatten(Map(seen, (r: nat) => Search(At(views, r).log, suspects)))
  }

  lemma TotalLast(views: seq<View>, seen: seq<nat>, r: nat, count: View -> int)
    ensures Total(views, seen + [r], count) == Total(views, seen, count) + count(At(views, r))
  {
    assert (seen + [r])[..|seen|] == seen;
  }

  lemma {:induction false} TotalAppend(views: seq<View>, a: seq<nat>, b: seq<nat>, count: View -> int)
    ensures Total(views, a + b, count) == Total(views, a, count) + Total(views, b, count)
  {
    if b == [] {
      assert a + b == a;
    } else {
      TotalAppend(views, a, b[..|b| - 1], count);
      assert (a + b)[..|a + b| - 1] == a + b[..|b| - 1];
    }
  }

  lemma {:induction false} TotalReordered(views: seq<View>, a: seq<nat>, b: seq<nat>, count: View -> int)
    requires multiset(a) == multiset(b)
    ensures Total(views, a, count) == Total(views, b, count)
    decreases |a|
  {
    assert |a| == |multiset(a)| == |multiset(b)| == |b|;
    if a != [] {
      var i := TakeOut(a, b);
      TotalReordered(views, a[..|a| - 1], b[..i] + b[i + 1..], count);
      TotalAppend(views, b[..i], b[i + 1..], count);
      TotalLast(views, b[..i], b[i], count);
      TotalAppend(views, b[..i] + [b[i]], b[i + 1..], count);
      assert b == b[..i] + [b[i]] + b[i + 1..];
    }
  }

  /** One replica's counter changes the total by as much, if the replica has been read. */
  lemma {:induction false} TotalChanged(views: seq<View>, i: nat, v: View, seen: seq<nat>, count: View -> int)
    requires i < |views| && Distinct(seen)
    ensures Total(views[i := v], seen, count)
         == Total(views, seen, count) + (if i + 1 in seen then count(v) - count(views[i]) else 0)
  {
    if seen != [] {
      var front, last := seen[..|seen| - 1], seen[|seen| - 1];
      TotalChanged(views, i, v, front, count);
      FrontAndLast(seen);
      assert last !in front;
      assert At(views[i := v], last) == if last == i + 1 then v else At(views, last);
    }
  }

  lemma SuspectsLast(views: seq<View>, seen: seq<nat>, r: nat)
    ensures Suspects(views, seen + [r]) == Suspects(views, seen) + At(views, r).duplicates
  {
    var of := (r: nat) => At(views, r).duplicates;
    assert Map(seen + [r], of) == Map(seen, of) + [of(r)];
    FlattenAppend(Map(seen, of), [of(r)]);
    assert Flatten([of(r)]) == of(r);
  }

  lemma FoundLast(cfg: Config, views: seq<View>, seen: seq<nat>, r: nat, suspects: seq<nat>)
    ensures Found(cfg, views, seen + [r], suspects)
         == Found(cfg, views, seen, suspects) + (if cfg.catcher then [] else Search(At(views, r).log, suspects))
  {
    var of := (r: nat) => Search(At(views, r).log, suspects);
    assert Map(seen + [r], of) == Map(seen, of) + [of(r)];
    FlattenAppend(Map(seen, of), [of(r)]);
    assert Flatten([of(r)]) == of(r);
  }

  // ---------- one round ----------

  /** What a round decides that has read the counters in the order `read` and the logs in
      the order `searched`. */
  function Decision(cfg: Config, views: seq<View>, a: Account, read: seq<nat>, searched: seq<nat>): Option<Account> {
    var suspects := Suspects(views, read) + a.duplicates;
    var repeats := CountDuplicates(cfg, Found(cfg, views, searched, suspects));
    if Total(views, read, Received()) - repeats.0 == a.sent
    then Some(Account(Total(views, read, Sent()) - repeats.1, suspects)) else None
  }

  predicate Full(n: nat, seen: seq<nat>) {
    SeenOk(n, seen) && |seen| == n
  }

  /** The counters in the token are those of the replicas `read`. */
  predicate Read(views: seq<View>, a: Account, m: Message, read: seq<nat>)
    requires m.EofDiscovery? || m.EofAggregation?
  {
    && a == Account(m.originalMessagesSent, m.originalPossibleDuplicates)
    && m.messagesReceived == Total(views, read, Received()) && m.messagesSent == Total(views, read, Sent())
    && m.possibleDuplicates == Suspects(views, read)
  }

  /** The token holds exactly what the replicas that it has seen add up to. */
  predicate Holds(cfg: Config, views: seq<View>, a: Account, m: Message, read: seq<nat>) {
    && |views| == cfg.replicasCount && cfg.hasSender && Fits(|views|, m)
    && match m
       case Eof(_, s, ds) => a == Account(s, ds)
       case EofDiscovery(_, _, _, _, _, _, seen) => Read(views, a, m, seen)
       case EofAggregation(_, _, ds, _, _, dups, seen, records) =>
         Full(|views|, read) && Read(views, a, m, read) && records == Found(cfg, views, seen, dups + ds)
       case _ => false
  }

  function ConfigAt(cfg: Config, i: nat): Config {
    cfg.(replicaId := i + 1)
  }

  function HopAt(cfg: Config, views: seq<View>, i: nat, m: Message): Hop
    requires i < |views| && IsToken(m)
  {
    Handle(ConfigAt(cfg, i), views[i], m)
  }

  lemma AggregationHolds(cfg: Config, views: seq<View>, a: Account, m: Message, read: seq<nat>, i: nat)
    requires Holds(cfg, views, a, m, read) && m.EofAggregation? && i < |views| && i + 1 !in m.replicaIdSeen
    ensures var h, seen := HandleAggregation(ConfigAt(cfg, i), views[i], m), m.replicaIdSeen + [i + 1];
      if |seen| < |views| then h.out != [] && h.verdict.None? && Holds(cfg, views, a, h.out[0], read)
      else Full(|views|, seen) && h.verdict == Decision(cfg, views, a, read, seen)
           && (h.verdict.Some? ==> h.view == views[i].(sent := h.verdict.value.sent,
                                                       announced := h.verdict.value.duplicates))
  {
    hide Found, Total, Suspects, CountDuplicates, SeenOk, Search, HandleAggregation, Decision, Read;
    var seen := m.replicaIdSeen + [i + 1];
    SeenGrows(|views|, m.replicaIdSeen, i + 1);
    FoundNext(cfg, views, m, i);
    if |seen| < |views| {
      Forwards(ConfigAt(cfg, i), views[i], m);
      ReadKept(views, a, m, UpdateAggregation(ConfigAt(cfg, i), views[i], m), read);
    } else {
      DecidesFor(ConfigAt(cfg, i), views[i], m);
      ReadDecision(cfg, views, a, m, read, seen, i);
    }
  }

  lemma FoundNext(cfg: Config, views: seq<View>, m: Message, i: nat)
    requires m.EofAggregation? && i < |views|
    ensures var suspects := m.possibleDuplicates + m.originalPossibleDuplicates;
      m.processedBy == Found(cfg, views, m.replicaIdSeen, suspects) ==>
        UpdateAggregation(ConfigAt(cfg, i), views[i], m).processedBy
        == Found(cfg, views, m.replicaIdSeen + [i + 1], suspects)
  {
    FoundLast(cfg, views, m.replicaIdSeen, i + 1, m.possibleDuplicates + m.originalPossibleDuplicates);
    assert At(views, i + 1) == views[i];
    hide Found, Search;
  }

  lemma Forwards(cfg: Config, v: View, m: Message)
    requires m.EofAggregation? && cfg.replicaId !in m.replicaIdSeen && |m.replicaIdSeen| + 1 < cfg.replicasCount
    ensures HandleAggregation(cfg, v, m) == Hop(v, [UpdateAggregation(cfg, v, m)], true, 0, None)
  {
    hide CountDuplicates, Search;
  }

  lemma DecidesFor(cfg: Config, v: View, m: Message)
    requires m.EofAggregation? && cfg.replicaId !in m.replicaIdSeen && |m.replicaIdSeen| + 1 == cfg.replicasCount
    requires cfg.hasSender
    ensures var h, repeats := HandleAggregation(cfg, v, m),
                              CountDuplicates(cfg, UpdateAggregation(cfg, v, m).processedBy);
      && h.verdict == (if m.messagesReceived - repeats.0 == m.originalMessagesSent
                       then Some(Account(m.messagesSent - repeats.1,
                                         m.possibleDuplicates + m.originalPossibleDuplicates)) else None)
      && (h.verdict.Some? ==> h.view == v.(sent := h.verdict.value.sent, announced := h.verdict.value.duplicates))
  {
    hide CountDuplicates, Search;
  }

  lemma ReadKept(views: seq<View>, a: Account, m: Message, n: Message, read: seq<nat>)
    requires m.EofAggregation? && n.EofAggregation? && Read(views, a, m, read)
    requires n == m.(replicaIdSeen := n.replicaIdSeen, processedBy := n.processedBy)
    ensures Read(views, a, n, read)
  {
  }

  /** What the last replica computes is the decision for the views. */
  lemma ReadDecision(cfg: Config, views: seq<View>, a: Account, m: Message, read: seq<nat>, searched: seq<nat>, i: nat)
    requires m.EofAggregation? && Read(views, a, m, read)
    ensures var found := Found(cfg, views, searched, m.possibleDuplicates + m.originalPossibleDuplicates);
      var repeats := CountDuplicates(ConfigAt(cfg, i), found);
      Decision(cfg, views, a, read, searched)
      == if m.messagesReceived - repeats.0 == m.originalMessagesSent
         then Some(Account(m.messagesSent - repeats.1, m.possibleDuplicates + m.originalPossibleDuplicates)) else None
  {
    hide Found, Total, Suspects, Repeats, SentOnly;
  }

  lemma ReadOn(cfg: Config, views: seq<View>, a: Account, m: Message, i: nat)
    requires cfg.hasSender && m.EofDiscovery? && Read(views, a, m, m.replicaIdSeen) && i < |views|
    ensures var n := UpdateDiscovery(ConfigAt(cfg, i), views[i], m);
      Read(views, a, n, n.replicaIdSeen) && Read(views, a, ToAggregation(n), n.replicaIdSeen)
  {
    hide Total, Suspects;
    TotalLast(views, m.replicaIdSeen, i + 1, Received());
    TotalLast(views, m.replicaIdSeen, i + 1, Sent());
    SuspectsLast(views, m.replicaIdSeen, i + 1);
    assert At(views, i + 1) == views[i];
    hide At, ConfigAt;
  }

  lemma DiscoveryHolds(cfg: Config, views: seq<View>, a: Account, m: Message, i: nat)
    requires Holds(cfg, views, a, m, []) && m.EofDiscovery? && i < |views| && i + 1 !in m.replicaIdSeen
    ensures var n, seen := UpdateDiscovery(ConfigAt(cfg, i), views[i], m), m.replicaIdSeen + [i + 1];
      if |seen| < |views| then Holds(cfg, views, a, n, [])
      else Holds(cfg, views, a, ToAggregation(n), seen)
  {
    hide SeenOk, Read, Total, Suspects, Found;
    SeenGrows(|views|, m.replicaIdSeen, i + 1);
    ReadOn(cfg, views, a, m, i);
    SearchStarts(cfg, views, UpdateDiscovery(ConfigAt(cfg, i), views[i], m));
  }

  lemma SearchStarts(cfg: Config, views: seq<View>, n: Message)
    requires n.EofDiscovery?
    ensures SeenOk(|views|, [])
    ensures var m := ToAggregation(n);
      m.processedBy == Found(cfg, views, m.replicaIdSeen, m.possibleDuplicates + m.originalPossibleDuplicates)
  {
  }

  lemma NothingFound(cfg: Config, views: seq<View>, suspects: seq<nat>)
    ensures Found(cfg, views, [], suspects) == []
    ensures Total(views, [], Received()) == 0 == Total(views, [], Sent()) && Suspects(views, []) == []
  {
  }

  /** An accepted hop of the undisturbed round: the token goes on and holds what it has seen,
      or the round decides. */
  ghost predicate RoundGoesOn(cfg: Config, views: seq<View>, a: Account, h: Hop, left: int) {
    && left > 1 && h.out != [] && h.verdict.None? && IsToken(h.out[0])
    && Remaining(|views|, h.out[0]) == left - 1
    && exists read :: Holds(cfg, views, a, h.out[0], read)
  }

  ghost predicate RoundEnds(cfg: Config, views: seq<View>, i: nat, a: Account, h: Hop)
    requires i < |views|
  {
    && (exists read, searched :: Full(|views|, read) && Full(|views|, searched)
                                 && h.verdict == Decision(cfg, views, a, read, searched))
    && (h.verdict.Some? ==> h.view == views[i].(sent := h.verdict.value.sent, announced := h.verdict.value.duplicates))
  }

  lemma AggregationHop(cfg: Config, views: seq<View>, a: Account, m: Message, read: seq<nat>, i: nat)
    requires Holds(cfg, views, a, m, read) && m.EofAggregation? && i < |views| && i + 1 !in m.replicaIdSeen
    ensures var h, left := HandleAggregation(ConfigAt(cfg, i), views[i], m), Remaining(|views|, m);
      if left > 1 then RoundGoesOn(cfg, views, a, h, left) else RoundEnds(cfg, views, i, a, h)
  {
    AggregationHolds(cfg, views, a, m, read, i);
    var h := HandleAggregation(ConfigAt(cfg, i), views[i], m);
    assert |m.replicaIdSeen| + 1 < |views| ==> h.out[0].EofAggregation? by {
      hide Found, Total, Suspects, CountDuplicates, SeenOk, Search;
    }
    hide HandleAggregation, Decision, Found, Total, Suspects, SeenOk;
  }

  lemma DiscoveryHop(cfg: Config, views: seq<View>, a: Account, m: Message, i: nat)
    requires Holds(cfg, views, a, m, []) && m.EofDiscovery? && i < |views| && i + 1 !in m.replicaIdSeen
    ensures var h, left := HandleDiscovery(ConfigAt(cfg, i), views[i], m), Remaining(|views|, m);
      if left > 1 then RoundGoesOn(cfg, views, a, h, left) else RoundEnds(cfg, views, i, a, h)
  {
    hide Decision, Holds, SeenOk, RoundGoesOn, RoundEnds, Fits;
    DiscoveryHolds(cfg, views, a, m, i);
    HoldsToken(cfg, views, a, m, []);
    var n := UpdateDiscovery(ConfigAt(cfg, i), views[i], m);
    var h := HandleDiscovery(ConfigAt(cfg, i), views[i], m);
    if |n.replicaIdSeen| < |views| {
      GoesOn(cfg, views, a, h, n, [], Remaining(|views|, m));
    } else {
      AggregationHop(cfg, views, a, ToAggregation(n), n.replicaIdSeen, i);
    }
  }

  lemma HoldsToken(cfg: Config, views: seq<View>, a: Account, m: Message, read: seq<nat>)
    requires Holds(cfg, views, a, m, read)
    ensures |views| == cfg.replicasCount && IsToken(m) && |Seen(m)| < |views|
    ensures m.EofDiscovery? ==> Seen(m) == m.replicaIdSeen
  {
  }

  lemma GoesOn(cfg: Config, views: seq<View>, a: Account, h: Hop, n: Message, read: seq<nat>, left: int)
    requires h == Hop(h.view, [n], true, 0, None) && Holds(cfg, views, a, n, read)
    requires IsToken(n) && Remaining(|views|, n) == left - 1 && left > 1
    ensures RoundGoesOn(cfg, views, a, h, left)
  {
    hide Holds, Remaining;
  }

  lemma RoundHop(cfg: Config, views: seq<View>, a: Account, m: Message, read: seq<nat>, i: nat)
    requires Holds(cfg, views, a, m, read) && i < |views| && i + 1 !in Seen(m)
    ensures var h, left := HopAt(cfg, views, i, m), Remaining(|views|, m);
      if left > 1 then RoundGoesOn(cfg, views, a, h, left) else RoundEnds(cfg, views, i, a, h)
  {
    NothingFound(cfg, views, []);
    hide RoundGoesOn, RoundEnds, HandleAggregation, HandleDiscovery, Total, Suspects, Found, SeenOk;
    match m
    case Eof(_, _, _) => DiscoveryHop(cfg, views, a, ToDiscovery(m), i);
    case EofDiscovery(_, _, _, _, _, _, _) => DiscoveryHop(cfg, views, a, m, i);
    case EofAggregation(_, _, _, _, _, _, _, _) => AggregationHop(cfg, views, a, m, read, i);
  }

  /** The replicas that accept the token of an undisturbed round, in turn. */
  ghost predicate Round(cfg: Config, views: seq<View>, m: Message, hops: seq<nat>)
    decreases |hops|
  {
    && hops != [] && hops[0] < |views| && IsToken(m) && hops[0] + 1 !in Seen(m)
    && (|hops| > 1 ==>
          var h := HopAt(cfg, views, hops[0], m);
          h.out != [] && Round(cfg, views, h.out[0], hops[1..]))
  }

  /** What the last of them does. */
  ghost function LastHop(cfg: Config, views: seq<View>, m: Message, hops: seq<nat>): Hop
    requires Round(cfg, views, m, hops)
    decreases |hops|
  {
    var h := HopAt(cfg, views, hops[0], m);
    if |hops| == 1 then h else LastHop(cfg, views, h.out[0], hops[1..])
  }

  lemma {:induction false} RoundDecides(cfg: Config, views: seq<View>, a: Account, m: Message, read: seq<nat>,
                                        hops: seq<nat>)
    requires Holds(cfg, views, a, m, read) && Round(cfg, views, m, hops) && |hops| == Remaining(|views|, m)
    ensures hops[|hops| - 1] < |views|
    ensures RoundEnds(cfg, views, hops[|hops| - 1], a, LastHop(cfg, views, m, hops))
    decreases |hops|
  {
    hide RoundEnds, Holds, HopAt, Round, LastHop, Remaining, Seen;
    RoundUnrolls(cfg, views, m, hops);
    RoundHop(cfg, views, a, m, read, hops[0]);
    if |hops| > 1 {
      var next := HopAt(cfg, views, hops[0], m).out[0];
      var read' :| Holds(cfg, views, a, next, read');
      RoundDecides(cfg, views, a, next, read', hops[1..]);
    }
  }

  lemma RoundUnrolls(cfg: Config, views: seq<View>, m: Message, hops: seq<nat>)
    requires Round(cfg, views, m, hops)
    ensures hops != [] && hops[0] < |views| && IsToken(m) && hops[0] + 1 !in Seen(m)
    ensures var h := HopAt(cfg, views, hops[0], m);
      if |hops| == 1 then LastHop(cfg, views, m, hops) == h
      else
        h.out != [] && Round(cfg, views, h.out[0], hops[1..])
        && LastHop(cfg, views, m, hops) == LastHop(cfg, views, h.out[0], hops[1..])
  {
    hide HopAt;
  }

  // ---------- the order of the visits ----------

  lemma {:induction false} DistinctOnce(s: seq<nat>, x: nat)
    requires Distinct(s)
    ensures multiset(s)[x] == if x in s then 1 else 0
  {
    if s != [] {
      DistinctOnce(s[..|s| - 1], x);
      FrontAndLast(s);
    }
  }

  lemma FullReordered(n: nat, a: seq<nat>, b: seq<nat>)
    requires Full(n, a) && Full(n, b)
    ensures multiset(a) == multiset(b)
  {
    FullCircle(n, a);
    FullCircle(n, b);
    forall r: nat
      ensures multiset(a)[r] == multiset(b)[r]
    {
      DistinctOnce(a, r);
      DistinctOnce(b, r);
      assert r in a <==> 1 <= r <= n;
    }
  }

  lemma SuspectsReordered(views: seq<View>, a: seq<nat>, b: seq<nat>)
    requires multiset(a) == multiset(b)
    ensures multiset(Suspects(views, a)) == multiset(Suspects(views, b))
  {
    var of := (r: nat) => At(views, r).duplicates;
    MapReordered(a, b, of);
    FlattenReordered(Map(a, of), Map(b, of));
  }

  lemma {:induction false} SearchSame(log: seq<ProcessedMessage>, a: seq<nat>, b: seq<nat>)
    requires forall x :: x in a <==> x in b
    ensures Search(log, a) == Search(log, b)
  {
    if log != [] {
      SearchSame(log[..|log| - 1], a, b);
    }
  }

  lemma FoundReordered(cfg: Config, views: seq<View>, a: seq<nat>, b: seq<nat>, s: seq<nat>, t: seq<nat>)
    requires multiset(a) == multiset(b) && multiset(s) == multiset(t)
    ensures multiset(Found(cfg, views, a, s)) == multiset(Found(cfg, views, b, t))
  {
    var inS, inT := (r: nat) => Search(At(views, r).log, s), (r: nat) => Search(At(views, r).log, t);
    assert forall x :: (x in s <==> x in multiset(s)) && (x in t <==> x in multiset(t));
    forall r: nat
      ensures inS(r) == inT(r)
    {
      SearchSame(At(views, r).log, s, t);
    }
    assert Map(a, inS) == Map(a, inT);
    MapReordered(a, b, inT);
    FlattenReordered(Map(a, inT), Map(b, inT));
  }

  /** Visiting the replicas in another order changes neither the decision nor the number,
      and the suspects only in their order. */
  lemma DecisionReordered(cfg: Config, views: seq<View>, a: Account, read: seq<nat>, searched: seq<nat>,
                          read': seq<nat>, searched': seq<nat>)
    requires Full(|views|, read) && Full(|views|, searched) && Full(|views|, read') && Full(|views|, searched')
    ensures var d, d' := Decision(cfg, views, a, read, searched), Decision(cfg, views, a, read', searched');
      && (d.Some? <==> d'.Some?)
      && (d.Some? ==> d.value.sent == d'.value.sent
                      && multiset(d.value.duplicates) == multiset(d'.value.duplicates))
  {
    FullReordered(|views|, read, read');
    FullReordered(|views|, searched, searched');
    TotalReordered(views, read, read', Received());
    TotalReordered(views, read, read', Sent());
    SuspectsReordered(views, read, read');
    var s, s' := Suspects(views, read) + a.duplicates, Suspects(views, read') + a.duplicates;
    FoundReordered(cfg, views, searched, searched', s, s');
    var found, found' := Found(cfg, views, searched, s), Found(cfg, views, searched', s');
    SentOnlyReordered(found, found');
    RepeatsReordered(found, found');
    RepeatsReordered(SentOnly(found), SentOnly(found'));
    hide Found, Total, Suspects, Full, Repeats, SentOnly;
  }

  // ---------- the second decision ----------

  /** The deciding replica's view when its round has succeeded. */
  function Overwritten(views: seq<View>, i: nat, d: Account): seq<View>
    requires i < |views|
  {
    views[i := views[i].(sent := d.sent, announced := d.duplicates)]
  }

  lemma OverwrittenTotals(views: seq<View>, i: nat, d: Account, read: seq<nat>)
    requires i < |views| && Full(|views|, read)
    ensures var after := Overwritten(views, i, d);
      && Total(after, read, Received()) == Total(views, read, Received())
      && Total(after, read, Sent()) == Total(views, read, Sent()) + (d.sent - views[i].sent)
  {
    var v := views[i].(sent := d.sent, announced := d.duplicates);
    FullCircle(|views|, read);
    hide Total;
    TotalChanged(views, i, v, read, Received());
    TotalChanged(views, i, v, read, Sent());
  }

  lemma OverwrittenSuspects(views: seq<View>, i: nat, d: Account, read: seq<nat>)
    requires i < |views|
    ensures Suspects(Overwritten(views, i, d), read) == Suspects(views, read)
  {
    assert Map(read, (r: nat) => At(views, r).duplicates)
        == Map(read, (r: nat) => At(Overwritten(views, i, d), r).duplicates);
  }

  lemma OverwrittenFound(cfg: Config, views: seq<View>, i: nat, d: Account, seen: seq<nat>, suspects: seq<nat>)
    requires i < |views|
    ensures Found(cfg, Overwritten(views, i, d), seen, suspects) == Found(cfg, views, seen, suspects)
  {
    assert Map(seen, (r: nat) => Search(At(views, r).log, suspects))
        == Map(seen, (r: nat) => Search(At(Overwritten(views, i, d), r).log, suspects));
  }

  lemma OverwrittenDecision(cfg: Config, views: seq<View>, a: Account, i: nat, d: Account,
                            read: seq<nat>, searched: seq<nat>)
    requires i < |views| && Full(|views|, read) && Full(|views|, searched)
    ensures var before, after := Decision(cfg, views, a, read, searched),
                                 Decision(cfg, Overwritten(views, i, d), a, read, searched);
      && (after.Some? <==> before.Some?)
      && (before.Some? ==> after.value == before.value.(sent := before.value.sent + d.sent - views[i].sent))
  {
    OverwrittenTotals(views, i, d, read);
    OverwrittenSuspects(views, i, d, read);
    OverwrittenFound(cfg, views, i, d, searched, Suspects(views, read) + a.duplicates);
    hide Found, Total, Suspects, Full, CountDuplicates, Overwritten;
  }

  /** An undisturbed round from an EOF, by any route, decides for the views and nothing else. */
  lemma RoundIsDecision(cfg: Config, views: seq<View>, client: nat, a: Account, hops: seq<nat>)
    returns (read: seq<nat>, searched: seq<nat>)
    requires |views| == cfg.replicasCount > 0 && cfg.hasSender && |hops| == 2 * |views| - 1
    requires Round(cfg, views, Eof(client, a.sent, a.duplicates), hops)
    ensures Full(|views|, read) && Full(|views|, searched)
    ensures var h, i := LastHop(cfg, views, Eof(client, a.sent, a.duplicates), hops), hops[|hops| - 1];
      && h.verdict == Decision(cfg, views, a, read, searched)
      && i < |views| && (h.verdict.Some? ==> views[i := h.view] == Overwritten(views, i, h.verdict.value))
  {
    var m := Eof(client, a.sent, a.duplicates);
    assert Holds(cfg, views, a, m, []);
    hide LastHop, Round, Holds, Decision, Full;
    RoundDecides(cfg, views, a, m, [], hops);
    var h := LastHop(cfg, views, m, hops);
    read, searched :| Full(|views|, read) && Full(|views|, searched)
                      && h.verdict == Decision(cfg, views, a, read, searched);
  }

  /** Two undisturbed rounds over the same views, by any routes, decide the same: both
      succeed or none does, with the same number and the same suspects up to their order. */
  lemma SameDecision(cfg: Config, views: seq<View>, client: nat, a: Account, first: seq<nat>, second: seq<nat>)
    requires |views| == cfg.replicasCount > 0 && cfg.hasSender
    requires |first| == |second| == 2 * |views| - 1
    requires Round(cfg, views, Eof(client, a.sent, a.duplicates), first)
    requires Round(cfg, views, Eof(client, a.sent, a.duplicates), second)
    ensures var m := Eof(client, a.sent, a.duplicates);
      var d, d' := LastHop(cfg, views, m, first).verdict, LastHop(cfg, views, m, second).verdict;
      && (d.Some? <==> d'.Some?)
      && (d.Some? ==> d.value.sent == d'.value.sent
                      && multiset(d.value.duplicates) == multiset(d'.value.duplicates))
  {
    var read, searched := RoundIsDecision(cfg, views, client, a, first);
    var read', searched' := RoundIsDecision(cfg, views, client, a, second);
    hide LastHop, Round, Decision, Full;
    DecisionReordered(cfg, views, a, read, searched, read', searched');
  }

  /** Two undisturbed rounds from the same EOF, one after the other, by any routes: when the
      first succeeds, so does the second, and it announces the first number once more, less
      what the first deciding replica had counted itself. The two announcements are the same
      number if and only if that replica alone had counted the exact number. */
  lemma SecondDecision(cfg: Config, views: seq<View>, client: nat, a: Account, first: seq<nat>, second: seq<nat>)
    requires |views| == cfg.replicasCount > 0 && cfg.hasSender
    requires |first| == |second| == 2 * |views| - 1
    requires Round(cfg, views, Eof(client, a.sent, a.duplicates), first)
    requires var i, h := first[|first| - 1], LastHop(cfg, views, Eof(client, a.sent, a.duplicates), first);
      && h.verdict.Some? && i < |views|
      && Round(cfg, views[i := h.view], Eof(client, a.sent, a.duplicates), second)
    ensures var m, i := Eof(client, a.sent, a.duplicates), first[|first| - 1];
      var h := LastHop(cfg, views, m, first);
      var h' := LastHop(cfg, views[i := h.view], m, second);
      && h'.verdict.Some?
      && h'.verdict.value.sent == 2 * h.verdict.value.sent - views[i].sent
      && (h'.verdict.value.sent == h.verdict.value.sent <==> views[i].sent == h.verdict.value.sent)
  {
    var m, i := Eof(client, a.sent, a.duplicates), first[|first| - 1];
    hide LastHop, Round, Decision, Full, Overwritten;
    var h := LastHop(cfg, views, m, first);
    var d := h.verdict.value;
    var read, searched := RoundIsDecision(cfg, views, client, a, first);
    var read', searched' := RoundIsDecision(cfg, views[i := h.view], client, a, second);
    OverwrittenDecision(cfg, views, a, i, d, read', searched');
    DecisionReordered(cfg, views, a, read, searched, read', searched');
  }

  const PAIR := Config(1, 2, false, true, false, None)

  /** The first two hops of the route 1, 2, 1 over two replicas that search for nothing. */
  lemma ShortDiscovery(client: nat, a: View, b: View)
    requires a.received + b.received == 2 && a.duplicates == b.duplicates == []
    ensures var m1 := EofDiscovery(client, 2, [], a.received, a.sent, [], [1]);
      && HopAt(PAIR, [a, b], 0, Eof(client, 2, [])) == Hop(a, [m1], true, 0, None)
      && HopAt(PAIR, [a, b], 1, m1)
         == Hop(b, [EofAggregation(client, 2, [], 2, a.sent + b.sent, [], [2], [])], true, 0, None)
  {
    var none: seq<nat> := [];
    assert none + none == none && none + [1] == [1] && none + [2] == [2] && [1] + [2] == [1, 2];
    SearchNothing(b.log);
    hide Search;
    var c1, c2 := ConfigAt(PAIR, 0), ConfigAt(PAIR, 1);
    var m1 := EofDiscovery(client, 2, [], a.received, a.sent, [], [1]);
    assert UpdateDiscovery(c1, a, ToDiscovery(Eof(client, 2, []))) == m1;
    var n := UpdateDiscovery(c2, b, m1);
    assert n == EofDiscovery(client, 2, [], 2, a.sent + b.sent, [], [1, 2]);
    Forwards(c2, b, ToAggregation(n));
  }

  lemma ShortDecision(client: nat, a: View, b: View)
    requires a.received + b.received == 2
    ensures var h := HopAt(PAIR, [a, b], 0, EofAggregation(client, 2, [], 2, a.sent + b.sent, [], [2], []));
      h.verdict == Some(Account(a.sent + b.sent, [])) && h.view == a.(sent := a.sent + b.sent, announced := [])
  {
    var c1, m2 := ConfigAt(PAIR, 0), EofAggregation(client, 2, [], 2, a.sent + b.sent, [], [2], []);
    var none: seq<nat> := [];
    assert none + none == none && [2] + [1] == [2, 1];
    SearchNothing(a.log);
    assert UpdateAggregation(c1, a, m2).processedBy == [] && CountDuplicates(c1, []) == (0, 0);
    hide Search, CountDuplicates;
    DecidesFor(c1, a, m2);
  }

  lemma ShortRound(client: nat, a: View, b: View)
    requires a.received + b.received == 2 && a.duplicates == b.duplicates == []
    ensures var h := LastHop(PAIR, [a, b], Eof(client, 2, []), [0, 1, 0]);
      && Round(PAIR, [a, b], Eof(client, 2, []), [0, 1, 0])
      && h.verdict == Some(Account(a.sent + b.sent, [])) && h.view == a.(sent := a.sent + b.sent, announced := [])
  {
    ShortDiscovery(client, a, b);
    ShortDecision(client, a, b);
    var hops := [0, 1, 0];
    assert hops[1..] == [1, 0] && hops[1..][1..] == [0];
    hide HopAt;
    var m2 := EofAggregation(client, 2, [], 2, a.sent + b.sent, [], [2], []);
    assert Round(PAIR, [a, b], m2, [0]);
    assert Round(PAIR, [a, b], EofDiscovery(client, 2, [], a.received, a.sent, [], [1]), [1, 0]);
  }

  lemma {:induction false} SearchNothing(log: seq<ProcessedMessage>)
    ensures Search(log, []) == []
  {
    if log != [] {
      SearchNothing(log[..|log| - 1]);
    }
  }

  /** Two replicas have handled one message each and sent one each: the first round announces
      2 and the second one 3. */
  lemma TwoThenThree(client: nat)
    ensures var m, hops := Eof(client, 2, []), [0, 1, 0];
      var a, b := View(1, 1, [], [], [ProcessedMessage(1, true)]), View(1, 1, [], [], [ProcessedMessage(2, true)]);
      && Round(PAIR, [a, b], m, hops)
      && var h := LastHop(PAIR, [a, b], m, hops);
         && h.verdict == Some(Account(2, [])) && Round(PAIR, [h.view, b], m, hops)
         && LastHop(PAIR, [h.view, b], m, hops).verdict == Some(Account(3, []))
  {
    var a, b := View(1, 1, [], [], [ProcessedMessage(1, true)]), View(1, 1, [], [], [ProcessedMessage(2, true)]);
    ShortRound(client, a, b);
    ShortRound(client, a.(sent := 2), b);
  }

  // ---------- in the stage ----------

  /** A quiet round of the stage machine is an undisturbed round over its views. */
  lemma {:induction false} AsRound(p: Params, st: Stage, hops: seq<nat>)
    requires Complete(p, st) && |st.views| == p.n && st.token.Some? && UpToDate(p, st, st.token.value)
    requires Accepting(p, st, hops) && |hops| == Remaining(p.n, st.token.value)
    ensures Invariant(p, Hops(p, st, hops)) && Round(ConfigOf(p, 0), st.views, st.token.value, hops)
    ensures var h, st' := LastHop(ConfigOf(p, 0), st.views, st.token.value, hops), Hops(p, st, hops);
      hops[|hops| - 1] < |st.views| && st'.verdict == h.verdict && st'.views == st.views[hops[|hops| - 1] := h.view]
    decreases |hops|
  {
    hide Complete, Intact, UpToDate, Next, Enabled, Accepting, Hops, Remaining, Invariant, Seen, Round, LastHop, HopAt;
    QuietSize(p, st);
    FirstHop(p, st, hops);
    QuietHop(p, st, hops[0]);
    OneHop(p, st, hops[0]);
    if |hops| > 1 {
      AsRound(p, Next(p, st, TokenHop(hops[0])), hops[1..]);
    }
    RoundRolls(ConfigOf(p, 0), st.views, st.token.value, hops);
  }

  lemma RoundRolls(cfg: Config, views: seq<View>, m: Message, hops: seq<nat>)
    requires hops != [] && hops[0] < |views| && IsToken(m) && hops[0] + 1 !in Seen(m)
    ensures var h := HopAt(cfg, views, hops[0], m);
      if |hops| == 1 then Round(cfg, views, m, hops) && LastHop(cfg, views, m, hops) == h
      else
        h.out != [] && Round(cfg, views, h.out[0], hops[1..]) ==>
          && Round(cfg, views, m, hops)
          && LastHop(cfg, views, m, hops) == LastHop(cfg, views, h.out[0], hops[1..])
  {
    hide HopAt;
  }

  lemma OneHop(p: Params, st: Stage, i: nat)
    requires Complete(p, st) && |st.views| == p.n && i < p.n && st.token.Some? && UpToDate(p, st, st.token.value)
    requires Enabled(p, st, TokenHop(i)) && i + 1 !in Seen(st.token.value)
    ensures var h, st' := HopAt(ConfigOf(p, 0), st.views, i, st.token.value), Next(p, st, TokenHop(i));
      && Invariant(p, st')
      && (if Remaining(p.n, st.token.value) > 1 then
            h.out != [] && st'.token == Some(h.out[0]) && st'.views == st.views
          else st'.verdict == h.verdict && st'.views == st.views[i := h.view])
  {
    hide Invariant, UpToDate, Intact, Complete, Next, HopAt, Remaining, Seen, Enabled;
    CompleteIsInvariant(p, st);
    HopInvariant(p, st, i);
    QuietAnswer(p, st, i);
    Applies(p, st, i);
    assert st.views[i := st.views[i]] == st.views;
  }

  lemma Applies(p: Params, st: Stage, i: nat)
    requires Enabled(p, st, TokenHop(i)) && st.verdict.None?
    ensures i < |st.views| && st.token.Some? && IsToken(st.token.value)
    ensures var h, st' := Handle(ConfigOf(p, i), st.views[i], st.token.value), Next(p, st, TokenHop(i));
      h.ack ==>
        && st'.token == (if h.out == [] then None else Some(h.out[0]))
        && st'.views == st.views[i := h.view] && st'.verdict == h.verdict
  {
    hide Handle;
  }

  lemma CompleteIsInvariant(p: Params, st: Stage)
    requires Complete(p, st)
    ensures ValidParams(p) && Invariant(p, st) && st.verdict.None?
  {
  }

  lemma QuietAnswer(p: Params, st: Stage, i: nat)
    requires Complete(p, st) && |st.views| == p.n && i < p.n && st.token.Some? && UpToDate(p, st, st.token.value)
    requires i + 1 !in Seen(st.token.value)
    ensures var h, m := HopAt(ConfigOf(p, 0), st.views, i, st.token.value), st.token.value;
      && h == Handle(ConfigOf(p, i), st.views[i], m) && h.ack
      && if Remaining(p.n, m) > 1 then h.out != [] && h.verdict.None? && h.view == st.views[i] else true
  {
    var m := st.token.value;
    assert Fits(p.n, m) && !m.EofFinish?;
    QuietHandle(p, st, i, m);
    hide Handle, UpToDate, Complete, Intact;
    HopStep(ConfigOf(p, i), st.views[i], m);
  }

  /** A complete stage whose counters are intact, with its EOF twice on the broker: the first
      round announces the number of distinct outputs; the second one announces twice that
      number less what the deciding replica had sent, which is right if and only if that
      replica had counted all of it. */
  lemma AnnouncedTwice(p: Params, st: Stage, first: seq<nat>, second: seq<nat>)
    requires Complete(p, st) && Intact(st) && st.token.Some? && st.token.value.Eof? && |st.views| == p.n
    requires Accepting(p, st, first) && |first| == |second| == 2 * p.n - 1
    requires Round(ConfigOf(p, 0), Hops(p, st, first).views, st.token.value, second)
    ensures var st', i := Hops(p, st, first), first[|first| - 1];
      var again := LastHop(ConfigOf(p, 0), st'.views, st.token.value, second).verdict;
      && i < |st.views| && st'.verdict.Some? && st'.verdict.value.sent == |p.emits|
      && again.Some? && again.value.sent == 2 * |p.emits| - st.views[i].sent
      && (again.value.sent == |p.emits| <==> st.views[i].sent == |p.emits|)
  {
    var m := st.token.value;
    hide Complete, Intact, Accepting, Hops, Round, LastHop, Invariant, Decided, UpToDate;
    EofIsUpToDate(p, st);
    FreshRound(p, st, first);
    AsRound(p, st, first);
    InvariantDecided(p, Hops(p, st, first));
    SecondDecision(ConfigOf(p, 0), st.views, m.clientId, Account(m.messagesSent, m.possibleDuplicates), first, second);
  }

  lemma EofIsUpToDate(p: Params, st: Stage)
    requires Complete(p, st) && st.token.Some? && st.token.value.Eof? && |st.views| == p.n
    ensures p.n > 0 && UpToDate(p, st, st.token.value) && Remaining(p.n, st.token.value) == 2 * p.n - 1
  {
  }

  lemma InvariantDecided(p: Params, st: Stage)
    requires Invariant(p, st) && st.verdict.Some?
    ensures st.verdict.value.sent == |p.emits|
  {
  }
}
